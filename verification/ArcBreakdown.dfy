/** The replay loop of _compute_breakdown: task-coalesced stream, re-reference rate, ghost-hit replays. */
module ArcBreakdown {
  import opened Collections
  import opened Arc
  import opened ArcReplay

  datatype TaskId = TaskId(id: string)

  datatype Event = Event(task: Option<TaskId>, artifact: Key)

  datatype Replay = Replay(num: nat, den: nat, capacity: nat, counters: Counters)

  datatype Metrics = Metrics(
    readEvents: nat, withTask: nat, withoutTask: nat,
    artifacts: nat, tasksReferencing: nat, distinctRefs: nat,
    rereferenced: nat, rereferenceRate: Option<real>, replays: seq<Replay>)

  /** Python's round for a nonnegative fraction num / den: halves go to the even neighbour. */
  function Round(num: nat, den: nat): nat
    requires den > 0
  {
    var q, r := num / den, num % den;
    if 2 * r > den || (2 * r == den && q % 2 == 1) then q + 1 else q
  }

  function Capacity(num: nat, den: nat, artifacts: nat): nat
    requires den > 0
  {
    var r := Round(num * artifacts, den);
    if r < 1 then 1 else r
  }

  /** The capacity is within half a page of the fraction, an exact half goes to the even side, and 0 becomes 1. */
  lemma CapacityIsNearest(num: nat, den: nat, artifacts: nat)
    requires den > 0
    ensures var c := Capacity(num, den, artifacts);
      && (2 * (num * artifacts) <= den ==> c == 1)
      && (2 * (num * artifacts) > den ==>
            && 2 * (num * artifacts) - den <= 2 * (den * c) <= 2 * (num * artifacts) + den
            && (2 * (den * c) == 2 * (num * artifacts) + den || 2 * (den * c) == 2 * (num * artifacts) - den ==>
                  c % 2 == 0))
  {
    NearestWhole(num * artifacts, den);
  }

  lemma NearestWhole(x: nat, den: nat)
    requires den > 0
    ensures var c := Round(x, den);
      && 2 * x - den <= 2 * (den * c) <= 2 * x + den
      && (2 * (den * c) == 2 * x + den || 2 * (den * c) == 2 * x - den ==> c % 2 == 0)
      && (c == 0 <==> 2 * x <= den)
  {
    var q, r := x / den, x % den;
    assert den * q + r == x;
    assert den * (q + 1) == den * q + den;
    if q > 0 {
      assert den * q >= den;
    }
  }

  // ----- the coalesced stream -----

  predicate Counted(e: Event, order: map<TaskId, int>) {
    e.task.Some? && e.task.value in order
  }

  /** The first reference of each (task, artifact) pair, in event order. */
  function Coalesce(events: seq<Event>, order: map<TaskId, int>): seq<(TaskId, Key)> {
    if events == [] then []
    else
      var n := |events| - 1;
      var rest, e := Coalesce(events[..n], order), events[n];
      if Counted(e, order) && (e.task.value, e.artifact) !in rest then rest + [(e.task.value, e.artifact)] else rest
  }

  function Stream(pairs: seq<(TaskId, Key)>): (r: seq<Key>)
    ensures |r| == |pairs|
    ensures forall i :: 0 <= i < |r| ==> r[i] == pairs[i].1
  {
    seq(|pairs|, i requires 0 <= i < |pairs| => pairs[i].1)
  }

  lemma {:induction false} CoalesceExact(events: seq<Event>, order: map<TaskId, int>)
    ensures var pairs := Coalesce(events, order);
      && NoDup(pairs)
      && (forall i :: 0 <= i < |pairs| ==> pairs[i].0 in order)
      && forall t, a :: (t, a) in pairs <==> t in order && Event(Some(t), a) in events
  {
    if events != [] {
      var n := |events| - 1;
      var e := events[n];
      CoalesceExact(events[..n], order);
      assert events == events[..n] + [e];
      var rest := Coalesce(events[..n], order);
      var pairs := Coalesce(events, order);
      forall t, a
        ensures (t, a) in pairs <==> t in order && Event(Some(t), a) in events
      {
        assert Event(Some(t), a) in events <==> Event(Some(t), a) in events[..n] || e == Event(Some(t), a);
      }
    }
  }

  /** Event n is a reference of the pair. */
  predicate Refers(events: seq<Event>, n: nat, pair: (TaskId, Key))
    requires n < |events|
  {
    events[n] == Event(Some(pair.0), pair.1)
  }

  /** Before any event of pair j there is one of pair i. */
  ghost predicate Precedes(events: seq<Event>, first: (TaskId, Key), second: (TaskId, Key)) {
    forall n :: 0 <= n < |events| && Refers(events, n, second) ==> exists m :: 0 <= m < n && Refers(events, m, first)
  }

  lemma PairOccurs(events: seq<Event>, order: map<TaskId, int>, pair: (TaskId, Key)) returns (n: nat)
    requires pair in Coalesce(events, order)
    ensures n < |events| && Refers(events, n, pair)
  {
    CoalesceExact(events, order);
    assert (pair.0, pair.1) == pair;
    n :| n < |events| && events[n] == Event(Some(pair.0), pair.1);
  }

  /** The pairs stand in the order of their first events. */
  lemma {:induction false} CoalesceInOrder(events: seq<Event>, order: map<TaskId, int>, i: nat, j: nat)
    requires i < j < |Coalesce(events, order)|
    ensures Precedes(events, Coalesce(events, order)[i], Coalesce(events, order)[j])
  {
    var h, pairs := events[..|events| - 1], Coalesce(events, order);
    var rest := Coalesce(h, order);
    assert rest[i] == pairs[i] && pairs[i] in rest;
    var first := PairOccurs(h, order, pairs[i]);
    assert Refers(events, first, pairs[i]);
    if j < |rest| {
      CoalesceInOrder(h, order, i, j);
    } else {
      CoalesceExact(h, order);
    }
    forall n | 0 <= n < |events| && Refers(events, n, pairs[j])
      ensures exists m :: 0 <= m < n && Refers(events, m, pairs[i])
    {
      if n < |h| {
        assert h[n] in h && Refers(h, n, pairs[j]);
        var m :| 0 <= m < n && Refers(h, m, pairs[i]);
        assert Refers(events, m, pairs[i]);
      }
    }
  }

  /** The artifacts that two tasks of different rank referenced. */
  ghost function Rereferenced(pairs: seq<(TaskId, Key)>, order: map<TaskId, int>): set<Key>
    requires forall i :: 0 <= i < |pairs| ==> pairs[i].0 in order
  {
    set i, j | 0 <= i < j < |pairs| && pairs[i].1 == pairs[j].1 && order[pairs[i].0] != order[pairs[j].0]
      :: pairs[i].1
  }

  /** When task ranks are distinct, an artifact is re-referenced exactly if it occurs twice in the stream. */
  lemma RereferencedIsRepeated(events: seq<Event>, order: map<TaskId, int>, a: Key)
    requires forall t, u :: t in order && u in order && order[t] == order[u] ==> t == u
    ensures var pairs := Coalesce(events, order);
      && (forall i :: 0 <= i < |pairs| ==> pairs[i].0 in order)
      && (a in Rereferenced(pairs, order) <==>
          exists i, j :: 0 <= i < j < |pairs| && Stream(pairs)[i] == a && Stream(pairs)[j] == a)
  {
    CoalesceExact(events, order);
    var pairs := Coalesce(events, order);
    if a in Rereferenced(pairs, order) {
      var i, j :| 0 <= i < j < |pairs| && pairs[i].1 == pairs[j].1 == a && order[pairs[i].0] != order[pairs[j].0];
      assert Stream(pairs)[i] == a && Stream(pairs)[j] == a;
    }
    if i, j :| 0 <= i < j < |pairs| && Stream(pairs)[i] == a && Stream(pairs)[j] == a {
      assert pairs[i] != pairs[j];
      assert order[pairs[i].0] != order[pairs[j].0];
    }
  }

  /** Hits and ghost hits are evidence of reuse: without a re-referenced artifact every replay only misses. */
  lemma NoReuseNoGhosts(events: seq<Event>, order: map<TaskId, int>, c: nat)
    requires c >= 1
    requires forall t, u :: t in order && u in order && order[t] == order[u] ==> t == u
    ensures var pairs := Coalesce(events, order);
      && (forall i :: 0 <= i < |pairs| ==> pairs[i].0 in order)
      && Run(c, Stream(pairs)).Some?
      && var k := Tally(Run(c, Stream(pairs)).value.1);
         && k.hits + k.GhostHits() <= |pairs| - |Elements(Stream(pairs))|
         && (Rereferenced(pairs, order) == {} ==> k.hits == k.GhostHits() == 0 && k.misses == |pairs|)
  {
    CoalesceExact(events, order);
    var pairs := Coalesce(events, order);
    MissesCoverKeys(c, Stream(pairs));
    CountsPartition(Run(c, Stream(pairs)).value.1);
    if Rereferenced(pairs, order) == {} {
      forall i, j | 0 <= i < j < |pairs|
        ensures Stream(pairs)[i] != Stream(pairs)[j]
      {
        RereferencedIsRepeated(events, order, pairs[i].1);
      }
      NoDupCardinality(Stream(pairs));
    }
  }

  // ----- the method -----

  /** The ranks recorded for one artifact, in stream order. */
  function RanksOf(pairs: seq<(TaskId, Key)>, order: map<TaskId, int>, a: Key): seq<int>
    requires forall i :: 0 <= i < |pairs| ==> pairs[i].0 in order
  {
    if pairs == [] then []
    else
      var n := |pairs| - 1;
      RanksOf(pairs[..n], order, a) + if pairs[n].1 == a then [order[pairs[n].0]] else []
  }

  lemma {:induction false} RanksExact(pairs: seq<(TaskId, Key)>, order: map<TaskId, int>, a: Key)
    requires forall i :: 0 <= i < |pairs| ==> pairs[i].0 in order
    ensures forall r :: r in RanksOf(pairs, order, a) <==>
              exists i :: 0 <= i < |pairs| && pairs[i].1 == a && order[pairs[i].0] == r
  {
    if pairs != [] {
      var n := |pairs| - 1;
      RanksExact(pairs[..n], order, a);
    }
  }

  /** len(set(ts)) >= 2 says exactly that two tasks of different rank referenced the artifact. */
  lemma TwoRanks(pairs: seq<(TaskId, Key)>, order: map<TaskId, int>, a: Key)
    requires forall i :: 0 <= i < |pairs| ==> pairs[i].0 in order
    ensures |Elements(RanksOf(pairs, order, a))| >= 2 <==> a in Rereferenced(pairs, order)
  {
    RanksExact(pairs, order, a);
    var ranks := Elements(RanksOf(pairs, order, a));
    if a in Rereferenced(pairs, order) {
      var i, j :| 0 <= i < j < |pairs| && pairs[i].1 == pairs[j].1 == a && order[pairs[i].0] != order[pairs[j].0];
      SubsetCardinality({order[pairs[i].0], order[pairs[j].0]}, ranks);
    }
    if |ranks| >= 2 {
      var l := RanksOf(pairs, order, a);
      if forall k :: 0 <= k < |l| ==> l[k] == l[0] {
        SubsetCardinality(ranks, if l == [] then {} else {l[0]});
        assert false;
      }
      var k :| 0 <= k < |l| && l[k] != l[0];
      assert l[k] in l && l[0] in l;
      var i :| 0 <= i < |pairs| && pairs[i].1 == a && order[pairs[i].0] == l[0];
      var j :| 0 <= j < |pairs| && pairs[j].1 == a && order[pairs[j].0] == l[k];
      assert i < j || j < i;
    }
  }

  ghost predicate Replayed(c: nat, h: seq<Key>, s: State, k: Counters) {
    Run(c, h).Some? && Run(c, h).value.0 == s && Tally(Run(c, h).value.1) == k
  }

  lemma TallySnoc(outs: seq<Outcome>, o: Outcome)
    ensures Tally(outs + [o]) == Tally(outs).Bump(o)
  {
    assert (outs + [o])[..|outs|] == outs;
  }

  lemma RunSnoc(c: nat, h: seq<Key>, x: Key, s: State, outs: seq<Outcome>, t: State, o: Outcome)
    requires Run(c, h) == Some((s, outs)) && Access(s, x) == Some((t, o))
    ensures Run(c, h + [x]) == Some((t, outs + [o]))
  {
    assert (h + [x])[..|h|] == h;
  }

  lemma ReplaySnoc(c: nat, h: seq<Key>, x: Key, s: State, k: Counters, t: State, o: Outcome)
    requires Replayed(c, h, s, k) && Access(s, x) == Some((t, o))
    ensures Replayed(c, h + [x], t, k.Bump(o))
  {
    var outs := Run(c, h).value.1;
    RunSnoc(c, h, x, s, outs, t, o);
    TallySnoc(outs, o);
  }

  /** One reference of the stream. */
  method ReplayOne(arc: PlainARC, stream: seq<Key>, i: nat)
    requires i < |stream| && arc.Valid() && Replayed(arc.c, stream[..i], arc.Value(), arc.counters)
    modifies arc
    ensures arc.Valid() && Replayed(arc.c, stream[..i + 1], arc.Value(), arc.counters)
  {
    var x := stream[i];
    ghost var before, k, h := arc.Value(), arc.counters, stream[..i];
    assert stream[..i + 1] == h + [x];
    var o := arc.Reference(x);
    ReplaySnoc(arc.c, h, x, before, k, arc.Value(), o);
  }

  method ReplayStream(stream: seq<Key>, cap: nat) returns (counters: Counters)
    requires cap >= 1
    ensures Run(cap, stream).Some? && counters == Tally(Run(cap, stream).value.1)
  {
    var arc := new PlainARC(cap);
    assert stream[..0] == [];
    for i := 0 to |stream|
      invariant arc.Valid() && fresh(arc) && arc.c == cap
      invariant Replayed(cap, stream[..i], arc.Value(), arc.counters)
    {
      ReplayOne(arc, stream, i);
    }
    assert stream[..|stream|] == stream;
    counters := arc.counters;
  }

  method ReplayAt(stream: seq<Key>, num: nat, den: nat, artifacts: nat) returns (r: Replay)
    requires den > 0
    ensures r.num == num && r.den == den && r.capacity == Capacity(num, den, artifacts) >= 1
    ensures Run(r.capacity, stream).Some? && r.counters == Tally(Run(r.capacity, stream).value.1)
  {
    var cap := Capacity(num, den, artifacts);
    var counters := ReplayStream(stream, cap);
    r := Replay(num, den, cap, counters);
  }

  lemma CoalesceSnoc(events: seq<Event>, order: map<TaskId, int>, n: nat)
    requires n < |events|
    ensures var pairs, e := Coalesce(events[..n], order), events[n];
      Coalesce(events[..n + 1], order) ==
      if Counted(e, order) && (e.task.value, e.artifact) !in pairs then pairs + [(e.task.value, e.artifact)] else pairs
  {
    assert events[..n + 1][..n] == events[..n];
  }

  /** artifact_tasks holds, for every artifact of the stream, its ranks in order. */
  ghost predicate Recorded(tasks: map<Key, seq<int>>, pairs: seq<(TaskId, Key)>, order: map<TaskId, int>)
  {
    && (forall i :: 0 <= i < |pairs| ==> pairs[i].0 in order)
    && tasks.Keys == Elements(Stream(pairs))
    && forall a :: a in tasks ==> tasks[a] == RanksOf(pairs, order, a)
  }

  method Append(tasks: map<Key, seq<int>>, a: Key, rank: int, ghost pairs: seq<(TaskId, Key)>,
                ghost order: map<TaskId, int>, ghost t: TaskId) returns (r: map<Key, seq<int>>)
    requires Recorded(tasks, pairs, order) && t in order && order[t] == rank
    ensures Recorded(r, pairs + [(t, a)], order)
  {
    ghost var pair := (t, a);
    assert Stream(pairs + [pair]) == Stream(pairs) + [a];
    assert forall i :: 0 <= i < |pairs| + 1 ==> (pairs + [pair])[i].0 in order;
    if a !in tasks {
      NoRanks(pairs, order, a);
    }
    r := tasks[a := (if a in tasks then tasks[a] else []) + [rank]];
    forall b | b in r
      ensures r[b] == RanksOf(pairs + [pair], order, b)
    {
    }
  }

  /** The events among the first n that name a ranked task. */
  function WithTask(events: seq<Event>, order: map<TaskId, int>, n: nat): set<nat>
    requires n <= |events|
  {
    set i: nat | i < n && events[i].task.Some? && events[i].task.value in order
  }

  lemma WithTaskSnoc(events: seq<Event>, order: map<TaskId, int>, n: nat)
    requires n < |events|
    ensures |WithTask(events, order, n + 1)| ==
            |WithTask(events, order, n)| + if Counted(events[n], order) then 1 else 0
  {
    assert WithTask(events, order, n + 1) == WithTask(events, order, n) + if Counted(events[n], order) then {n} else {};
  }

  /** The event loop: the stream, its seen pairs, and the ranks recorded per artifact. */
  method CoalesceEvents(events: seq<Event>, order: map<TaskId, int>)
    returns (withTask: nat, withoutTask: nat, seen: set<(TaskId, Key)>, stream: seq<Key>, tasks: map<Key, seq<int>>)
    ensures withTask == |WithTask(events, order, |events|)| && withTask + withoutTask == |events|
    ensures var pairs := Coalesce(events, order);
      seen == Elements(pairs) && stream == Stream(pairs) && Recorded(tasks, pairs, order)
  {
    withTask, withoutTask, seen, stream, tasks := 0, 0, {}, [], map[];
    ghost var pairs := [];
    for n := 0 to |events|
      invariant withTask == |WithTask(events, order, n)| && withTask + withoutTask == n
      invariant pairs == Coalesce(events[..n], order)
      invariant seen == Elements(pairs) && stream == Stream(pairs) && Recorded(tasks, pairs, order)
    {
      CoalesceSnoc(events, order, n);
      WithTaskSnoc(events, order, n);
      var e := events[n];
      if Counted(e, order) {
        withTask := withTask + 1;
        var pair := (e.task.value, e.artifact);
        if pair !in seen {
          tasks := Append(tasks, e.artifact, order[e.task.value], pairs, order, e.task.value);
          seen := seen + {pair};
          stream := stream + [e.artifact];
          pairs := pairs + [pair];
        }
      } else {
        withoutTask := withoutTask + 1;
      }
    }
    assert events[..|events|] == events;
  }

  lemma RepeatedArtifacts(tasks: map<Key, seq<int>>, pairs: seq<(TaskId, Key)>, order: map<TaskId, int>)
    requires Recorded(tasks, pairs, order)
    ensures (set a | a in tasks && |Elements(tasks[a])| >= 2) == Rereferenced(pairs, order)
  {
    forall a: Key
      ensures a in tasks && |Elements(tasks[a])| >= 2 <==> a in Rereferenced(pairs, order)
    {
      TwoRanks(pairs, order, a);
      if a in Rereferenced(pairs, order) {
        var i :| 0 <= i < |pairs| && pairs[i].1 == a;
        assert Stream(pairs)[i] == a;
      }
    }
  }

  method ComputeBreakdown(events: seq<Event>, order: map<TaskId, int>) returns (m: Metrics)
    ensures var pairs := Coalesce(events, order);
      && (forall i :: 0 <= i < |pairs| ==> pairs[i].0 in order)
      && m.readEvents == |events| == m.withTask + m.withoutTask && m.withTask == |WithTask(events, order, |events|)|
      && m.distinctRefs == |pairs|
      && m.artifacts == |Elements(Stream(pairs))|
      && m.tasksReferencing == |set p | p in pairs :: p.0|
      && m.rereferenced == |Rereferenced(pairs, order)|
      && (m.artifacts == 0 ==> m.rereferenceRate == None && m.replays == [])
      && (m.artifacts > 0 ==>
            && m.rereferenceRate == Some(m.rereferenced as real / m.artifacts as real)
            && |m.replays| == 2
            && IsReplay(m.replays[0], Stream(pairs), 1, 10) && IsReplay(m.replays[1], Stream(pairs), 1, 4))
  {
    var withTask, withoutTask, seen, stream, recorded := CoalesceEvents(events, order);
    ghost var pairs := Coalesce(events, order);
    var tasks := set p | p in seen :: p.0;
    assert tasks == set p | p in pairs :: p.0;
    var again := set a | a in recorded && |Elements(recorded[a])| >= 2;
    RepeatedArtifacts(recorded, pairs, order);
    var artifacts := |recorded.Keys|;
    m := Metrics(|events|, withTask, withoutTask, artifacts, |tasks|, |stream|, |again|, None, []);
    if artifacts != 0 {
      var tenth := ReplayAt(stream, 1, 10, artifacts);
      var quarter := ReplayAt(stream, 1, 4, artifacts);
      m := m.(rereferenceRate := Some(|again| as real / artifacts as real), replays := [tenth, quarter]);
    }
  }

  /** A replay record: the counters of an ARC whose capacity is the fraction of the distinct artifacts, at least 1. */
  ghost predicate IsReplay(r: Replay, stream: seq<Key>, num: nat, den: nat)
    requires den > 0
  {
    && r.num == num && r.den == den
    && r.capacity == Capacity(num, den, |Elements(stream)|) >= 1
    && Run(r.capacity, stream).Some?
    && r.counters == Tally(Run(r.capacity, stream).value.1)
  }

  lemma {:induction false} NoRanks(pairs: seq<(TaskId, Key)>, order: map<TaskId, int>, a: Key)
    requires forall i :: 0 <= i < |pairs| ==> pairs[i].0 in order
    requires a !in Stream(pairs)
    ensures RanksOf(pairs, order, a) == []
  {
    if pairs != [] {
      var n := |pairs| - 1;
      assert Stream(pairs)[n] == pairs[n].1;
      assert forall i :: 0 <= i < n ==> Stream(pairs[..n])[i] == Stream(pairs)[i];
      NoRanks(pairs[..n], order, a);
    }
  }
}
