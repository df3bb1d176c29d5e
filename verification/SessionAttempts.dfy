/** The latest complete attempt of every session in a run log (src/karc/bench/e10_horizon_execution.py). */
module SessionAttempts {
  import opened Collections
  import opened RunLoop
  import Sorting
  import StringOrder

  datatype Key = Key(arm: string, session: string)

  datatype Row = Row(key: Key, attempt: int, position: int, failure: FailureClass)

  function Filter(rows: seq<Row>, keep: Row -> bool): seq<Row> {
    if rows == [] then []
    else
      var n := |rows| - 1;
      Filter(rows[..n], keep) + if keep(rows[n]) then [rows[n]] else []
  }

  function In(key: Key, attempt: int): Row -> bool {
    (row: Row) => row.key == key && row.attempt == attempt
  }

  function Finished(): Row -> bool {
    (row: Row) => row.failure.Ok? || row.failure.Task?
  }

  /** The rows of one attempt that ended with a grade, in log order. */
  function ValidRows(rows: seq<Row>, key: Key, attempt: int): seq<Row> {
    Filter(Filter(rows, In(key, attempt)), Finished())
  }

  function Positions(rows: seq<Row>): set<int> {
    set i | 0 <= i < |rows| :: rows[i].position
  }

  /** set(range(1, length + 1)). */
  function UpTo(length: nat): (r: set<int>)
    ensures forall p :: p in r <==> 1 <= p <= length
    ensures |r| == length
  {
    if length == 0 then {} else UpTo(length - 1) + {length}
  }

  /** length rows at the positions 1..length. */
  predicate FullUnit(valid: seq<Row>, length: nat) {
    |valid| == length && Positions(valid) == UpTo(length)
  }

  ghost predicate CompleteAttempt(rows: seq<Row>, length: nat, key: Key, attempt: int) {
    FullUnit(ValidRows(rows, key, attempt), length)
  }

  /** An attempt is complete and no later one of its session is. */
  ghost predicate LatestComplete(rows: seq<Row>, length: nat, key: Key, attempt: int) {
    && CompleteAttempt(rows, length, key, attempt)
    && forall a :: CompleteAttempt(rows, length, key, a) ==> a <= attempt
  }

  lemma {:induction false} FilterMembers(rows: seq<Row>, keep: Row -> bool)
    ensures forall row :: row in Filter(rows, keep) <==> row in rows && keep(row)
  {
    if rows != [] {
      var n := |rows| - 1;
      FilterMembers(rows[..n], keep);
      assert rows == rows[..n] + [rows[n]];
    }
  }

  /** The positions in the log of the rows of one attempt that ended well or failed at their task. */
  function Graded(rows: seq<Row>, key: Key, attempt: int): set<nat> {
    set i: nat | i < |rows| && rows[i].key == key && rows[i].attempt == attempt
                 && (rows[i].failure.Ok? || rows[i].failure.Task?)
  }

  lemma GradedSnoc(rows: seq<Row>, key: Key, attempt: int)
    requires rows != []
    ensures var n := |rows| - 1;
      Graded(rows, key, attempt) == Graded(rows[..n], key, attempt) +
      if rows[n].key == key && rows[n].attempt == attempt && (rows[n].failure.Ok? || rows[n].failure.Task?) then {n}
      else {}
  {
    var n := |rows| - 1;
    assert forall i :: 0 <= i < n ==> rows[..n][i] == rows[i];
  }

  lemma {:induction false} GradedCount(rows: seq<Row>, key: Key, attempt: int)
    ensures |ValidRows(rows, key, attempt)| == |Graded(rows, key, attempt)|
  {
    if rows != [] {
      var n := |rows| - 1;
      GradedCount(rows[..n], key, attempt);
      GradedSnoc(rows, key, attempt);
      var before := Filter(rows[..n], In(key, attempt));
      if In(key, attempt)(rows[n]) {
        assert Filter(rows, In(key, attempt))[..|before|] == before;
      } else {
        assert Filter(rows, In(key, attempt)) == before;
      }
    }
  }

  /** A graded row of the attempt stands at position p of its session. */
  ghost predicate Covered(rows: seq<Row>, key: Key, attempt: int, p: int) {
    exists i :: i in Graded(rows, key, attempt) && rows[i].position == p
  }

  /** An attempt is complete exactly if its graded rows are length many and stand at the positions 1..length. */
  lemma CompleteIs(rows: seq<Row>, length: nat, key: Key, attempt: int)
    ensures CompleteAttempt(rows, length, key, attempt) <==>
            |Graded(rows, key, attempt)| == length
            && forall p: int :: Covered(rows, key, attempt, p) <==> 1 <= p <= length
  {
    GradedCount(rows, key, attempt);
    var valid := ValidRows(rows, key, attempt);
    FilterMembers(rows, In(key, attempt));
    FilterMembers(Filter(rows, In(key, attempt)), Finished());
    forall p: int
      ensures Covered(rows, key, attempt, p) <==> p in Positions(valid)
    {
      if i :| i in Graded(rows, key, attempt) && rows[i].position == p {
        assert rows[i] in valid;
      }
      if p in Positions(valid) {
        var j :| 0 <= j < |valid| && valid[j].position == p;
        assert valid[j] in rows;
        var i :| 0 <= i < |rows| && rows[i] == valid[j];
        assert i in Graded(rows, key, attempt);
      }
    }
  }

  // ----- grouping -----

  datatype Unit = Unit(key: Key, attempt: int)

  ghost predicate Grouped(rows: seq<Row>, groups: map<Unit, seq<Row>>) {
    && (forall u :: u in groups ==> groups[u] == Filter(rows, In(u.key, u.attempt)))
    && forall row :: row in rows ==> Unit(row.key, row.attempt) in groups
  }

  method Group(rows: seq<Row>) returns (groups: map<Unit, seq<Row>>)
    ensures Grouped(rows, groups)
  {
    groups := map[];
    for i := 0 to |rows|
      invariant Grouped(rows[..i], groups)
    {
      var row := rows[i];
      var u := Unit(row.key, row.attempt);
      GroupMore(rows[..i], groups, row);
      assert rows[..i + 1] == rows[..i] + [row];
      groups := groups[u := (if u in groups then groups[u] else []) + [row]];
    }
    assert rows[..|rows|] == rows;
  }

  lemma GroupMore(rows: seq<Row>, groups: map<Unit, seq<Row>>, row: Row)
    requires Grouped(rows, groups)
    ensures var u := Unit(row.key, row.attempt);
      Grouped(rows + [row], groups[u := (if u in groups then groups[u] else []) + [row]])
  {
    var u := Unit(row.key, row.attempt);
    var next := groups[u := (if u in groups then groups[u] else []) + [row]];
    if u !in groups {
      FilterMembers(rows, In(u.key, u.attempt));
      EmptyOrInhabited(Filter(rows, In(u.key, u.attempt)));
    }
    forall v | v in next
      ensures next[v] == Filter(rows + [row], In(v.key, v.attempt))
    {
      assert Filter(rows, In(v.key, v.attempt)) + [] == Filter(rows, In(v.key, v.attempt));
    }
  }

  // ----- the latest complete attempt -----

  datatype Best = Best(attempt: int, rows: seq<Row>)

  ghost predicate BestAt(rows: seq<Row>, length: nat, handled: set<Unit>, key: Key, best: Best) {
    && Unit(key, best.attempt) in handled
    && CompleteAttempt(rows, length, key, best.attempt)
    && best.rows == ValidRows(rows, key, best.attempt)
  }

  ghost predicate Beaten(rows: seq<Row>, length: nat, complete: map<Key, Best>, u: Unit) {
    CompleteAttempt(rows, length, u.key, u.attempt) ==>
      u.key in complete && u.attempt <= complete[u.key].attempt
  }

  /** What the loop has found among the groups that it has handled. */
  ghost predicate BestOf(rows: seq<Row>, length: nat, handled: set<Unit>, complete: map<Key, Best>) {
    && (forall key :: key in complete ==> BestAt(rows, length, handled, key, complete[key]))
    && forall u :: u in handled ==> Beaten(rows, length, complete, u)
  }

  lemma BestImproves(rows: seq<Row>, length: nat, handled: set<Unit>, complete: map<Key, Best>, u: Unit, best: Best)
    requires BestOf(rows, length, handled, complete)
    requires BestAt(rows, length, handled + {u}, u.key, best) && best.attempt == u.attempt
    requires u.key in complete ==> complete[u.key].attempt < u.attempt
    ensures BestOf(rows, length, handled + {u}, complete[u.key := best])
  {
    var next := complete[u.key := best];
    forall v | v in handled + {u}
      ensures Beaten(rows, length, next, v)
    {
      assert v in handled ==> Beaten(rows, length, complete, v);
    }
    forall key | key in next
      ensures BestAt(rows, length, handled + {u}, key, next[key])
    {
      assert key != u.key ==> BestAt(rows, length, handled, key, complete[key]);
    }
  }

  lemma BestIsLatest(rows: seq<Row>, length: nat, groups: map<Unit, seq<Row>>, complete: map<Key, Best>)
    requires length >= 1 && Grouped(rows, groups) && BestOf(rows, length, groups.Keys, complete)
    ensures forall key :: key in complete <==> exists a :: CompleteAttempt(rows, length, key, a)
    ensures forall key :: key in complete ==>
      LatestComplete(rows, length, key, complete[key].attempt) &&
      complete[key].rows == ValidRows(rows, key, complete[key].attempt)
  {
    EveryCompleteGrouped(rows, length, groups);
    forall key, a | CompleteAttempt(rows, length, key, a)
      ensures key in complete && a <= complete[key].attempt
    {
      assert Beaten(rows, length, complete, Unit(key, a));
    }
    forall key | key in complete
      ensures CompleteAttempt(rows, length, key, complete[key].attempt)
      ensures complete[key].rows == ValidRows(rows, key, complete[key].attempt)
    {
      assert BestAt(rows, length, groups.Keys, key, complete[key]);
    }
  }

  /** One group: its graded rows replace the session's best attempt if they are full and later. */
  method Consider(ghost rows: seq<Row>, length: nat, ghost handled: set<Unit>, complete: map<Key, Best>, u: Unit,
                  unit: seq<Row>)
    returns (complete': map<Key, Best>)
    requires BestOf(rows, length, handled, complete) && unit == Filter(rows, In(u.key, u.attempt))
    ensures BestOf(rows, length, handled + {u}, complete')
  {
    var valid := KeepFinished(unit);
    if FullUnit(valid, length) && (u.key !in complete || u.attempt > complete[u.key].attempt) {
      BestImproves(rows, length, handled, complete, u, Best(u.attempt, valid));
      complete' := complete[u.key := Best(u.attempt, valid)];
    } else {
      complete' := complete;
    }
  }

  /** The dictionary that latest_complete builds, before its rows are flattened and sorted. */
  method LatestAttempts(rows: seq<Row>, length: nat) returns (complete: map<Key, Best>)
    requires length >= 1
    ensures forall key :: key in complete <==> exists a :: CompleteAttempt(rows, length, key, a)
    ensures forall key :: key in complete ==>
      LatestComplete(rows, length, key, complete[key].attempt) &&
      complete[key].rows == ValidRows(rows, key, complete[key].attempt)
  {
    var groups := Group(rows);
    complete := map[];
    var rest := groups.Keys;
    ghost var handled := {};
    while rest != {}
      invariant handled + rest == groups.Keys
      invariant BestOf(rows, length, handled, complete)
    {
      var u :| u in rest;
      complete := Consider(rows, length, handled, complete, u, groups[u]);
      rest, handled := rest - {u}, handled + {u};
    }
    BestIsLatest(rows, length, groups, complete);
  }

  method KeepFinished(unit: seq<Row>) returns (valid: seq<Row>)
    ensures valid == Filter(unit, Finished())
  {
    valid := [];
    for i := 0 to |unit|
      invariant valid == Filter(unit[..i], Finished())
    {
      assert unit[..i + 1][..i] == unit[..i];
      if unit[i].failure.Ok? || unit[i].failure.Task? {
        valid := valid + [unit[i]];
      }
    }
    assert unit[..|unit|] == unit;
  }

  lemma EveryCompleteGrouped(rows: seq<Row>, length: nat, groups: map<Unit, seq<Row>>)
    requires length >= 1 && Grouped(rows, groups)
    ensures forall key, a :: CompleteAttempt(rows, length, key, a) ==> Unit(key, a) in groups
  {
    forall key, a | CompleteAttempt(rows, length, key, a)
      ensures Unit(key, a) in groups
    {
      var unit := Filter(rows, In(key, a));
      FilterMembers(rows, In(key, a));
      FilterMembers(unit, Finished());
      assert ValidRows(rows, key, a)[0] in unit;
    }
  }

  // ----- each position once -----

  lemma {:induction false} PositionsAtMost(rows: seq<Row>)
    ensures |Positions(rows)| <= |rows|
    ensures |Positions(rows)| == |rows| ==> forall i, j :: 0 <= i < j < |rows| ==> rows[i].position != rows[j].position
  {
    if rows != [] {
      var n := |rows| - 1;
      PositionsAtMost(rows[..n]);
      assert Positions(rows) == Positions(rows[..n]) + {rows[n].position} by {
        assert rows == rows[..n] + [rows[n]];
        forall p | p in Positions(rows[..n]) + {rows[n].position}
          ensures p in Positions(rows)
        {
          if p in Positions(rows[..n]) {
            var i :| 0 <= i < n && rows[..n][i].position == p;
            assert rows[i].position == p;
          }
        }
      }
      if |Positions(rows)| == |rows| {
        assert rows[n].position !in Positions(rows[..n]);
        forall i, j | 0 <= i < j < |rows|
          ensures rows[i].position != rows[j].position
        {
          assert rows[..n][i].position == rows[i].position;
          if j < n {
            assert rows[..n][j].position == rows[j].position;
          } else {
            assert rows[i].position in Positions(rows[..n]);
          }
        }
      }
    }
  }

  /** A full unit has every position exactly once. */
  lemma OncePerPosition(valid: seq<Row>, length: nat, p: int)
    requires FullUnit(valid, length) && 1 <= p <= length
    ensures exists i :: 0 <= i < |valid| && valid[i].position == p
    ensures forall i, j :: 0 <= i < |valid| && 0 <= j < |valid| && valid[i].position == valid[j].position ==> i == j
  {
    PositionsAtMost(valid);
    assert p in Positions(valid);
  }

  // ----- the rows of the latest complete attempts -----

  /** The sort key: session, then arm, then position. */
  function RowOrder(): (Row, Row) -> bool {
    (a: Row, b: Row) =>
      StringOrder.Less(a.key.session, b.key.session)
      || (a.key.session == b.key.session
          && (StringOrder.Less(a.key.arm, b.key.arm) || (a.key.arm == b.key.arm && a.position < b.position)))
  }

  lemma RowOrderTransitive()
    ensures Sorting.Transitive(RowOrder())
  {
    forall a: Row, b: Row, c: Row | RowOrder()(a, b) && RowOrder()(b, c)
      ensures RowOrder()(a, c)
    {
      if StringOrder.Less(a.key.session, b.key.session) && StringOrder.Less(b.key.session, c.key.session) {
        StringOrder.Transitive(a.key.session, b.key.session, c.key.session);
      }
      if StringOrder.Less(a.key.arm, b.key.arm) && StringOrder.Less(b.key.arm, c.key.arm) {
        StringOrder.Transitive(a.key.arm, b.key.arm, c.key.arm);
      }
    }
  }

  lemma RowsDiffer(a: Row, b: Row)
    requires a.key != b.key || a.position != b.position
    ensures RowOrder()(a, b) || RowOrder()(b, a)
  {
    StringOrder.Trichotomy(a.key.session, b.key.session);
    StringOrder.Trichotomy(a.key.arm, b.key.arm);
  }

  /** No two rows belong to the same position of the same session. */
  ghost predicate Apart(rows: seq<Row>) {
    forall i, j :: 0 <= i < j < |rows| ==> rows[i].key != rows[j].key || rows[i].position != rows[j].position
  }

  lemma ApartIsComparable(rows: seq<Row>)
    requires Apart(rows)
    ensures Sorting.Comparable(rows, RowOrder())
  {
    forall i, j | 0 <= i < j < |rows|
      ensures RowOrder()(rows[i], rows[j]) || RowOrder()(rows[j], rows[i])
    {
      RowsDiffer(rows[i], rows[j]);
    }
  }

  /** The rows of a session's best attempt: all its own, one per position. */
  ghost predicate OwnRows(key: Key, rows: seq<Row>) {
    Apart(rows) && forall row :: row in rows ==> row.key == key
  }

  lemma BestRowsAreOwn(rows: seq<Row>, length: nat, key: Key, attempt: int)
    requires CompleteAttempt(rows, length, key, attempt)
    ensures OwnRows(key, ValidRows(rows, key, attempt))
  {
    FilterMembers(rows, In(key, attempt));
    FilterMembers(Filter(rows, In(key, attempt)), Finished());
    PositionsAtMost(ValidRows(rows, key, attempt));
  }

  /** flat holds the rows of the sessions that were handled. */
  ghost predicate Flattened(complete: map<Key, Best>, handled: set<Key>, flat: seq<Row>)
    requires handled <= complete.Keys
  {
    Apart(flat) && forall row :: row in flat <==> row.key in handled && row in complete[row.key].rows
  }

  lemma FlattenedMore(complete: map<Key, Best>, handled: set<Key>, flat: seq<Row>, key: Key)
    requires handled <= complete.Keys && Flattened(complete, handled, flat)
    requires key in complete && key !in handled && OwnRows(key, complete[key].rows)
    ensures Flattened(complete, handled + {key}, flat + complete[key].rows)
  {
    var more := complete[key].rows;
    forall i, j | 0 <= i < j < |flat + more|
      ensures (flat + more)[i].key != (flat + more)[j].key || (flat + more)[i].position != (flat + more)[j].position
    {
      if i < |flat| <= j {
        assert flat[i] in flat && more[j - |flat|] in more;
      }
    }
  }

  method Flatten(complete: map<Key, Best>) returns (flat: seq<Row>)
    requires forall key :: key in complete ==> OwnRows(key, complete[key].rows)
    ensures Flattened(complete, complete.Keys, flat)
  {
    flat := [];
    var rest := complete.Keys;
    ghost var handled := {};
    while rest != {}
      invariant handled !! rest && handled + rest == complete.Keys
      invariant Flattened(complete, handled, flat)
    {
      var key :| key in rest;
      FlattenedMore(complete, handled, flat, key);
      flat := flat + complete[key].rows;
      rest, handled := rest - {key}, handled + {key};
    }
  }

  /** A row of the latest complete attempt of its session. */
  ghost predicate LatestRow(rows: seq<Row>, length: nat, row: Row) {
    exists a :: LatestComplete(rows, length, row.key, a) && row in ValidRows(rows, row.key, a)
  }

  lemma OnlyLatest(rows: seq<Row>, length: nat, complete: map<Key, Best>, row: Row)
    requires forall key :: key in complete <==> exists a :: CompleteAttempt(rows, length, key, a)
    requires forall key :: key in complete ==>
      LatestComplete(rows, length, key, complete[key].attempt) &&
      complete[key].rows == ValidRows(rows, key, complete[key].attempt)
    ensures row.key in complete && row in complete[row.key].rows <==> LatestRow(rows, length, row)
  {
    if a :| LatestComplete(rows, length, row.key, a) && row in ValidRows(rows, row.key, a) {
      assert CompleteAttempt(rows, length, row.key, a);
      assert a == complete[row.key].attempt;
    }
  }

  /** No later session, no later arm of the session, and an earlier position of the two. */
  ghost predicate Precedes(a: Row, b: Row) {
    && !StringOrder.Less(b.key.session, a.key.session)
    && (a.key.session == b.key.session ==> !StringOrder.Less(b.key.arm, a.key.arm))
    && (a.key == b.key ==> a.position < b.position)
  }

  lemma OrderedPrecedes(a: Row, b: Row)
    requires RowOrder()(a, b)
    ensures Precedes(a, b)
  {
    StringOrder.Trichotomy(a.key.session, b.key.session);
    StringOrder.Trichotomy(a.key.arm, b.key.arm);
  }

  /** latest_complete: exactly these rows, each position of a session once, in order of session, arm and position. */
  method LatestRows(rows: seq<Row>, length: nat) returns (sorted: seq<Row>)
    requires length >= 1
    ensures Sorting.Sorted(sorted, RowOrder())
    ensures forall i, j :: 0 <= i < j < |sorted| ==> Precedes(sorted[i], sorted[j])
    ensures forall row :: row in sorted <==> LatestRow(rows, length, row)
  {
    var complete := LatestAttempts(rows, length);
    forall key | key in complete
      ensures OwnRows(key, complete[key].rows)
    {
      BestRowsAreOwn(rows, length, key, complete[key].attempt);
    }
    var flat := Flatten(complete);
    RowOrderTransitive();
    ApartIsComparable(flat);
    sorted := Sorting.Sort(flat, RowOrder());
    forall i, j | 0 <= i < j < |sorted|
      ensures Precedes(sorted[i], sorted[j])
    {
      OrderedPrecedes(sorted[i], sorted[j]);
    }
    forall row
      ensures row in sorted <==> LatestRow(rows, length, row)
    {
      assert row in sorted <==> row in multiset(sorted);
      assert row in flat <==> row in multiset(flat);
      OnlyLatest(rows, length, complete, row);
    }
  }

  // ----- the next attempt -----

  /** next_session_attempt: one more than the greatest attempt in the log, or zero. */
  method NextAttempt(rows: seq<Row>, key: Key) returns (next: int)
    ensures forall i :: 0 <= i < |rows| && rows[i].key == key ==> rows[i].attempt < next
    ensures (exists i :: 0 <= i < |rows| && rows[i].key == key) ==>
              exists i :: 0 <= i < |rows| && rows[i].key == key && rows[i].attempt + 1 == next
    ensures (forall i :: 0 <= i < |rows| ==> rows[i].key != key) ==> next == 0
  {
    var greatest: Option<int> := None;
    for i := 0 to |rows|
      invariant greatest.None? ==> forall j :: 0 <= j < i ==> rows[j].key != key
      invariant greatest.Some? ==>
        && (forall j :: 0 <= j < i && rows[j].key == key ==> rows[j].attempt <= greatest.value)
        && exists j :: 0 <= j < i && rows[j].key == key && rows[j].attempt == greatest.value
    {
      if rows[i].key == key && (greatest.None? || rows[i].attempt > greatest.value) {
        greatest := Some(rows[i].attempt);
      }
    }
    next := (if greatest.Some? then greatest.value else -1) + 1;
  }

  /** A retry under the next attempt number becomes the latest complete one as soon as it is complete. */
  lemma RetryWins(rows: seq<Row>, more: seq<Row>, length: nat, key: Key, next: int)
    requires length >= 1 && forall i :: 0 <= i < |rows| && rows[i].key == key ==> rows[i].attempt < next
    requires forall i :: 0 <= i < |more| && more[i].key == key ==> more[i].attempt == next
    requires CompleteAttempt(rows + more, length, key, next)
    ensures LatestComplete(rows + more, length, key, next)
  {
    forall a | CompleteAttempt(rows + more, length, key, a)
      ensures a <= next
    {
      var unit := Filter(rows + more, In(key, a));
      FilterMembers(rows + more, In(key, a));
      FilterMembers(unit, Finished());
      var row := ValidRows(rows + more, key, a)[0];
      assert row in unit;
      assert row.key == key && row.attempt == a && (row in rows || row in more);
    }
  }
}
