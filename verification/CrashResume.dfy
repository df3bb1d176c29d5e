/** Runs, crashes and resumes over one log: a unit with a surviving complete row is not executed again. */
module CrashResume {
  import opened Collections
  import opened RunLoop
  import opened Checkpoint

  /** The log file, whether a run is active, and the executions that run may still make, repetitions included. */
  datatype World = World(log: seq<Line>, running: bool, todo: multiset<Unit>)

  /**
   * A resume reads the log and takes the pending units. An execution appends its row; after a usage limit the
   * unit stays with the run, after any other outcome it leaves it. The row itself is lost when it lands on a torn
   * tail. A crash cuts the log after any line and may leave a torn one.
   */
  datatype Step =
    | Resume
    | Execute(unit: Unit, failure: FailureClass, glued: bool)
    | Crash(keep: nat, torn: bool)

  function Stopped(log: seq<Line>): World {
    World(log, false, multiset{})
  }

  function RowOf(u: Unit, failure: FailureClass, runId: Unit -> RunId): Line {
    Parsed(Row(Some(runId(u)), failure))
  }

  function Next(w: World, units: seq<Unit>, runId: Unit -> RunId, step: Step): Option<World> {
    match step
    case Resume =>
      if w.running then None
      else Some(World(w.log, true, multiset(Pending(Completed(Rows(w.log)), units, runId))))
    case Execute(u, failure, glued) =>
      if !w.running || u !in w.todo || (glued && (w.log == [] || w.log[|w.log| - 1] != Torn)) then None
      else
        var log := if glued then w.log else w.log + [RowOf(u, failure, runId)];
        Some(World(log, true, if failure == UsageLimit then w.todo else w.todo - multiset{u}))
    case Crash(keep, torn) =>
      if keep > |w.log| then None
      else Some(Stopped(w.log[..keep] + if torn then [Torn] else []))
  }

  function Play(w: World, units: seq<Unit>, runId: Unit -> RunId, steps: seq<Step>): Option<World> {
    if steps == [] then Some(w)
    else
      match Play(w, units, runId, steps[..|steps| - 1])
      case None => None
      case Some(v) => Next(v, units, runId, steps[|steps| - 1])
  }

  lemma PlaySnoc(w0: World, units: seq<Unit>, runId: Unit -> RunId, steps: seq<Step>, step: Step)
    requires Play(w0, units, runId, steps).Some?
    ensures Play(w0, units, runId, steps + [step]) == Next(Play(w0, units, runId, steps).value, units, runId, step)
  {
    assert (steps + [step])[..|steps|] == steps;
  }

  /** Distinct units of the schedule have distinct, nonempty run ids. */
  ghost predicate Identified(units: seq<Unit>, runId: Unit -> RunId) {
    && (forall u :: u in units ==> runId(u).id != "")
    && forall u, v :: u in units && v in units && runId(u) == runId(v) ==> u == v
  }

  /** The schedule lists u exactly once. */
  predicate Once(units: seq<Unit>, u: Unit) {
    multiset(units)[u] == 1
  }

  /** Nothing that an active run may still execute is complete in the log, unless the schedule repeats it. */
  ghost predicate TodoIncomplete(w: World, units: seq<Unit>, runId: Unit -> RunId) {
    && w.todo <= multiset(units)
    && (!w.running ==> w.todo == multiset{})
    && forall u :: u in w.todo && Once(units, u) ==> runId(u) !in Completed(Rows(w.log))
  }

  lemma RowsSnoc(log: seq<Line>, line: Line)
    ensures Rows(log + [line]) == Rows(log) + if line.Parsed? then [line.row] else []
  {
    assert (log + [line])[..|log|] == log;
  }

  lemma CompletedSnoc(rows: seq<Row>, id: RunId, failure: FailureClass)
    requires id.id != ""
    ensures var more := Completed(rows + [Row(Some(id), failure)]);
      && (id in more <==> IsComplete(failure))
      && forall other :: other != id ==> (other in more <==> other in Completed(rows))
  {
    assert (rows + [Row(Some(id), failure)])[..|rows|] == rows;
  }

  lemma ExecuteKeeps(w: World, units: seq<Unit>, runId: Unit -> RunId, u: Unit, failure: FailureClass, glued: bool)
    requires Identified(units, runId) && TodoIncomplete(w, units, runId)
    requires Next(w, units, runId, Execute(u, failure, glued)).Some?
    ensures TodoIncomplete(Next(w, units, runId, Execute(u, failure, glued)).value, units, runId)
  {
    assert u in multiset(units);
    if !glued {
      RowsSnoc(w.log, RowOf(u, failure, runId));
      CompletedSnoc(Rows(w.log), runId(u), failure);
    }
  }

  lemma StepKeeps(w: World, units: seq<Unit>, runId: Unit -> RunId, step: Step)
    requires Identified(units, runId) && TodoIncomplete(w, units, runId) && Next(w, units, runId, step).Some?
    ensures TodoIncomplete(Next(w, units, runId, step).value, units, runId)
  {
    match step
    case Resume =>
      PendingPartitions(Completed(Rows(w.log)), units, runId);
    case Execute(u, failure, glued) => ExecuteKeeps(w, units, runId, u, failure, glued);
    case Crash(keep, torn) =>
  }

  lemma {:induction false} PlayKeeps(w: World, units: seq<Unit>, runId: Unit -> RunId, steps: seq<Step>)
    requires Identified(units, runId) && TodoIncomplete(w, units, runId) && Play(w, units, runId, steps).Some?
    ensures TodoIncomplete(Play(w, units, runId, steps).value, units, runId)
  {
    if steps != [] {
      PlayKeeps(w, units, runId, steps[..|steps| - 1]);
      StepKeeps(Play(w, units, runId, steps[..|steps| - 1]).value, units, runId, steps[|steps| - 1]);
    }
  }

  lemma {:induction false} PlayPrefix(w: World, units: seq<Unit>, runId: Unit -> RunId, steps: seq<Step>, i: nat)
    requires i <= |steps| && Play(w, units, runId, steps).Some?
    ensures Play(w, units, runId, steps[..i]).Some?
  {
    if i == |steps| {
      assert steps[..i] == steps;
    } else {
      PlayPrefix(w, units, runId, steps[..|steps| - 1], i);
      assert steps[..|steps| - 1][..i] == steps[..i];
    }
  }

  lemma PlayStep(w: World, units: seq<Unit>, runId: Unit -> RunId, steps: seq<Step>, i: nat)
    requires i < |steps| && Play(w, units, runId, steps).Some?
    ensures Play(w, units, runId, steps[..i]).Some? && Play(w, units, runId, steps[..i + 1]).Some?
    ensures Next(Play(w, units, runId, steps[..i]).value, units, runId, steps[i]) ==
            Play(w, units, runId, steps[..i + 1])
  {
    PlayPrefix(w, units, runId, steps, i);
    PlayPrefix(w, units, runId, steps, i + 1);
    assert steps[..i + 1][..i] == steps[..i];
  }

  /**
   * From any log: whenever a unit that the schedule lists once is executed, its latest surviving row is not
   * complete.
   */
  lemma NeverExecutesComplete(log: seq<Line>, units: seq<Unit>, runId: Unit -> RunId, steps: seq<Step>, i: nat)
    requires Identified(units, runId)
    requires Play(Stopped(log), units, runId, steps).Some? && i < |steps| && steps[i].Execute?
    ensures Play(Stopped(log), units, runId, steps[..i]).Some?
    ensures steps[i].unit in units
    ensures var w := Play(Stopped(log), units, runId, steps[..i]).value;
      Once(units, steps[i].unit) ==> runId(steps[i].unit) !in Completed(Rows(w.log))
  {
    PlayStep(Stopped(log), units, runId, steps, i);
    PlayKeeps(Stopped(log), units, runId, steps[..i]);
    assert steps[i].unit in multiset(units);
  }

  /** Step i executes u although the log then shows u complete. */
  ghost predicate Wasted(log: seq<Line>, units: seq<Unit>, runId: Unit -> RunId, steps: seq<Step>, i: nat, u: Unit) {
    && i < |steps| && steps[i].Execute? && steps[i].unit == u
    && Play(Stopped(log), units, runId, steps).Some? && Play(Stopped(log), units, runId, steps[..i]).Some?
    && runId(u) in Completed(Rows(Play(Stopped(log), units, runId, steps[..i]).value.log))
  }

  lemma {:induction false} NothingFinished(units: seq<Unit>, runId: Unit -> RunId)
    ensures Finished({}, units, runId) == []
  {
    if units != [] {
      NothingFinished(units[..|units| - 1], runId);
    }
  }

  /** With an empty log everything is pending. */
  lemma AllPending(units: seq<Unit>, runId: Unit -> RunId)
    ensures Completed(Rows([])) == {}
    ensures multiset(Pending(Completed(Rows([])), units, runId)) == multiset(units)
  {
    assert Completed(Rows([])) == {};
    PendingPartitions({}, units, runId);
    NothingFinished(units, runId);
  }

  lemma FirstRow(units: seq<Unit>, runId: Unit -> RunId, u: Unit)
    requires runId(u).id != ""
    ensures runId(u) in Completed(Rows([RowOf(u, Ok, runId)]))
  {
    RowsSnoc([], RowOf(u, Ok, runId));
    CompletedSnoc([], runId(u), Ok);
    assert [] + [RowOf(u, Ok, runId)] == [RowOf(u, Ok, runId)];
    assert [] + [Row(Some(runId(u)), Ok)] == [Row(Some(runId(u)), Ok)];
  }

  lemma FirstResume(units: seq<Unit>, runId: Unit -> RunId)
    ensures Play(Stopped([]), units, runId, [Resume]) == Some(World([], true, multiset(units)))
  {
    AllPending(units, runId);
    PlaySnoc(Stopped([]), units, runId, [], Resume);
    assert [] + [Resume] == [Resume];
  }

  lemma FirstExecution(units: seq<Unit>, runId: Unit -> RunId, u: Unit)
    requires u in units
    ensures Play(Stopped([]), units, runId, [Resume, Execute(u, Ok, false)]) ==
            Some(World([RowOf(u, Ok, runId)], true, multiset(units) - multiset{u}))
  {
    assert u in multiset(units);
    var run := Execute(u, Ok, false);
    FirstResume(units, runId);
    var w1 := World([], true, multiset(units));
    assert Next(w1, units, runId, run) == Some(World(w1.log + [RowOf(u, Ok, runId)], true, w1.todo - multiset{u}));
    PlaySnoc(Stopped([]), units, runId, [Resume], run);
    assert [Resume] + [run] == [Resume, run] && [] + [RowOf(u, Ok, runId)] == [RowOf(u, Ok, runId)];
  }

  /** Both entries of a repeated unit are pending at the first resume, so the second one is executed in vain. */
  lemma RepeatedIsWasted(units: seq<Unit>, runId: Unit -> RunId, u: Unit) returns (steps: seq<Step>)
    requires Identified(units, runId) && multiset(units)[u] >= 2
    ensures Wasted([], units, runId, steps, 2, u)
  {
    assert u in multiset(units);
    var run := Execute(u, Ok, false);
    FirstExecution(units, runId, u);
    FirstRow(units, runId, u);
    PlaySnoc(Stopped([]), units, runId, [Resume, run], run);
    steps := [Resume, run] + [run];
    assert steps[..2] == [Resume, run];
  }

  /** No run ever wastes an execution on u exactly if the schedule lists u once. */
  lemma WastedIffRepeated(units: seq<Unit>, runId: Unit -> RunId, u: Unit)
    requires Identified(units, runId) && u in units
    ensures (forall log, steps, i :: !Wasted(log, units, runId, steps, i, u)) <==> Once(units, u)
  {
    if Once(units, u) {
      forall log, steps: seq<Step>, i: nat
        | Play(Stopped(log), units, runId, steps).Some? && i < |steps| && steps[i].Execute?
        ensures !Wasted(log, units, runId, steps, i, u)
      {
        NeverExecutesComplete(log, units, runId, steps, i);
      }
    } else {
      assert u in multiset(units);
      var steps := RepeatedIsWasted(units, runId, u);
    }
  }

  // ----- a surviving complete row -----

  /** Line r is a complete row of u, and no later line carries a row of u. */
  ghost predicate Survives(log: seq<Line>, r: nat, u: Unit, runId: Unit -> RunId) {
    && r < |log| && log[r].Parsed? && log[r].row.runId == Some(runId(u)) && IsComplete(log[r].row.failure)
    && forall j :: r < j < |log| ==> !(log[j].Parsed? && log[j].row.runId == Some(runId(u)))
  }

  lemma {:induction false} SurvivorIsComplete(log: seq<Line>, r: nat, u: Unit, runId: Unit -> RunId)
    requires Survives(log, r, u, runId) && runId(u).id != ""
    ensures runId(u) in Completed(Rows(log))
  {
    var n := |log| - 1;
    assert log == log[..n] + [log[n]];
    RowsSnoc(log[..n], log[n]);
    if r == n {
      CompletedSnoc(Rows(log[..n]), runId(u), log[n].row.failure);
    } else {
      SurvivorIsComplete(log[..n], r, u, runId);
      if log[n].Parsed? {
        LatestSnocOther(Rows(log[..n]), log[n].row, runId(u));
      } else {
        assert Rows(log) == Rows(log[..n]);
      }
    }
  }

  lemma LatestSnocOther(rows: seq<Row>, row: Row, id: RunId)
    requires row.runId != Some(id)
    ensures id in Completed(rows + [row]) <==> id in Completed(rows)
  {
    assert (rows + [row])[..|rows|] == rows;
  }

  lemma SurvivesOther(log: seq<Line>, r: nat, u: Unit, runId: Unit -> RunId, line: Line)
    requires Survives(log, r, u, runId) && (line.Parsed? ==> line.row.runId != Some(runId(u)))
    ensures Survives(log + [line], r, u, runId)
  {
  }

  lemma SurvivesCut(log: seq<Line>, r: nat, u: Unit, runId: Unit -> RunId, keep: nat, torn: bool)
    requires Survives(log, r, u, runId) && r < keep <= |log|
    ensures Survives(log[..keep] + if torn then [Torn] else [], r, u, runId)
  {
  }

  /** What a run may still execute is neither a surviving unit nor one of the same run id. */
  lemma SurvivorNotTodo(w: World, units: seq<Unit>, runId: Unit -> RunId, r: nat, u: Unit, v: Unit)
    requires Identified(units, runId) && TodoIncomplete(w, units, runId) && Once(units, u)
    requires Survives(w.log, r, u, runId) && v in w.todo
    ensures v != u && runId(v) != runId(u)
  {
    assert u in multiset(units) && v in multiset(units);
    SurvivorIsComplete(w.log, r, u, runId);
  }

  lemma SurvivesStep(w: World, units: seq<Unit>, runId: Unit -> RunId, step: Step, r: nat, u: Unit)
    requires Identified(units, runId) && TodoIncomplete(w, units, runId) && Once(units, u)
    requires Survives(w.log, r, u, runId) && Next(w, units, runId, step).Some?
    requires step.Crash? ==> r < step.keep
    ensures Survives(Next(w, units, runId, step).value.log, r, u, runId)
    ensures step.Execute? ==> step.unit != u
  {
    match step
    case Resume =>
    case Execute(v, failure, glued) =>
      SurvivorNotTodo(w, units, runId, r, u, v);
      SurvivesOther(w.log, r, u, runId, RowOf(v, failure, runId));
    case Crash(keep, torn) => SurvivesCut(w.log, r, u, runId, keep, torn);
  }

  /** The world v after i steps keeps the invariant and a surviving complete row of u. */
  ghost predicate Guarded(w0: World, units: seq<Unit>, runId: Unit -> RunId, steps: seq<Step>, i: nat, v: World,
                          r: nat, u: Unit)
    requires i <= |steps|
  {
    Play(w0, units, runId, steps[..i]) == Some(v) && TodoIncomplete(v, units, runId) && Survives(v.log, r, u, runId)
  }

  lemma GuardedStep(w0: World, units: seq<Unit>, runId: Unit -> RunId, steps: seq<Step>, i: nat, v: World, r: nat,
                    u: Unit)
    returns (v': World)
    requires Identified(units, runId) && Once(units, u) && Play(w0, units, runId, steps).Some?
    requires i < |steps| && Guarded(w0, units, runId, steps, i, v, r, u)
    requires steps[i].Crash? ==> r < steps[i].keep
    ensures Guarded(w0, units, runId, steps, i + 1, v', r, u)
    ensures steps[i].Execute? ==> steps[i].unit != u
  {
    PlayStep(w0, units, runId, steps, i);
    v' := Next(v, units, runId, steps[i]).value;
    StepKeeps(v, units, runId, steps[i]);
    SurvivesStep(v, units, runId, steps[i], r, u);
  }

  lemma {:induction false} SurvivorStays(w0: World, units: seq<Unit>, runId: Unit -> RunId, steps: seq<Step>,
                                         i: nat, j: nat, v: World, r: nat, u: Unit)
    returns (v': World)
    requires Identified(units, runId) && Once(units, u) && Play(w0, units, runId, steps).Some?
    requires i <= j <= |steps| && Guarded(w0, units, runId, steps, i, v, r, u)
    requires forall k :: i <= k < j && steps[k].Crash? ==> r < steps[k].keep
    ensures Guarded(w0, units, runId, steps, j, v', r, u)
    decreases j - i
  {
    v' := v;
    if i < j {
      v' := GuardedStep(w0, units, runId, steps, i, v, r, u);
      v' := SurvivorStays(w0, units, runId, steps, i + 1, j, v', r, u);
    }
  }

  /** As long as no crash cuts the log below it, a complete row keeps its unit from ever being executed again. */
  lemma SurvivorBlocks(log: seq<Line>, units: seq<Unit>, runId: Unit -> RunId, steps: seq<Step>,
                       i: nat, j: nat, r: nat, u: Unit)
    requires Identified(units, runId) && Once(units, u)
    requires Play(Stopped(log), units, runId, steps).Some? && i <= j < |steps|
    requires Play(Stopped(log), units, runId, steps[..i]).Some?
    requires Survives(Play(Stopped(log), units, runId, steps[..i]).value.log, r, u, runId)
    requires forall k :: i <= k < j && steps[k].Crash? ==> r < steps[k].keep
    ensures steps[j].Execute? ==> steps[j].unit != u
  {
    var w0 := Stopped(log);
    PlayKeeps(w0, units, runId, steps[..i]);
    var v := Play(w0, units, runId, steps[..i]).value;
    v := SurvivorStays(w0, units, runId, steps, i, j, v, r, u);
    if steps[j].Execute? {
      v := GuardedStep(w0, units, runId, steps, j, v, r, u);
    }
  }

  /** Once every unit has a surviving complete row, a resume finds nothing to do. */
  lemma NothingPending(log: seq<Line>, units: seq<Unit>, runId: Unit -> RunId)
    requires Identified(units, runId)
    requires forall u :: u in units ==> exists r: nat :: Survives(log, r, u, runId)
    ensures Pending(Completed(Rows(log)), units, runId) == []
  {
    var done := Completed(Rows(log));
    PendingPartitions(done, units, runId);
    forall u | u in units
      ensures runId(u) in done
    {
      var r: nat :| Survives(log, r, u, runId);
      SurvivorIsComplete(log, r, u, runId);
    }
    EmptyOrInhabited(Pending(done, units, runId));
  }

  // ----- what a crash brings back -----

  lemma {:induction false} PendingCount(done: set<RunId>, units: seq<Unit>, runId: Unit -> RunId, u: Unit)
    ensures multiset(Pending(done, units, runId))[u] == if runId(u) in done then 0 else multiset(units)[u]
  {
    if units != [] {
      var n := |units| - 1;
      PendingCount(done, units[..n], runId, u);
      assert units == units[..n] + [units[n]];
    }
  }

  /** A line of the file carries a row of u. */
  predicate RowIn(log: seq<Line>, i: nat, u: Unit, runId: Unit -> RunId)
    requires i < |log|
  {
    log[i].Parsed? && log[i].row.runId == Some(runId(u))
  }

  ghost predicate NoRow(log: seq<Line>, u: Unit, runId: Unit -> RunId) {
    forall i :: 0 <= i < |log| ==> !RowIn(log, i, u, runId)
  }

  lemma NoRowOf(log: seq<Line>, u: Unit, runId: Unit -> RunId)
    requires runId(u).id != "" && NoRow(log, u, runId)
    ensures runId(u) !in Completed(Rows(log))
  {
    var i := LatestLine(log, runId(u));
    assert i < |log| ==> !RowIn(log, i, u, runId);
  }

  lemma NoRowInCut(log: seq<Line>, keep: nat, torn: bool, u: Unit, runId: Unit -> RunId)
    requires keep <= |log| && forall i :: 0 <= i < keep ==> !RowIn(log, i, u, runId)
    ensures NoRow(log[..keep] + if torn then [Torn] else [], u, runId)
  {
    var cut := log[..keep] + if torn then [Torn] else [];
    forall i | 0 <= i < |cut|
      ensures !RowIn(cut, i, u, runId)
    {
      assert i < keep ==> cut[i] == log[i] && !RowIn(log, i, u, runId);
    }
  }

  /** When a crash cuts off every row of a unit, the next resume has it to execute again, with all its repetitions. */
  lemma LostRowsRunAgain(w: World, units: seq<Unit>, runId: Unit -> RunId, keep: nat, torn: bool, u: Unit)
    requires Next(w, units, runId, Crash(keep, torn)).Some? && runId(u).id != "" && keep <= |w.log|
    requires forall i :: 0 <= i < keep ==> !RowIn(w.log, i, u, runId)
    ensures Next(Next(w, units, runId, Crash(keep, torn)).value, units, runId, Resume).Some?
    ensures var resumed := Next(Next(w, units, runId, Crash(keep, torn)).value, units, runId, Resume).value;
      resumed.running && resumed.todo[u] == multiset(units)[u]
  {
    var log := Next(w, units, runId, Crash(keep, torn)).value.log;
    NoRowInCut(w.log, keep, torn, u, runId);
    NoRowOf(log, u, runId);
    PendingCount(Completed(Rows(log)), units, runId, u);
  }
}
