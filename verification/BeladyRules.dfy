/** The rules of the clairvoyant cache, read off its finished rows and the task list (e5_killgate.py). */
module BeladyRules {
  import opened Collections
  import StringOrder
  import opened Belady

  /** From task start on, w is required before v is; of two versions never required again it has the smaller id. */
  ghost predicate NeededSooner(tasks: seq<Task>, start: nat, w: Version, v: Version)
    requires start <= |tasks|
  {
    || (exists j :: start <= j < |tasks| && RequiredFirst(tasks, start, j, w, v))
    || ((forall k :: start <= k < |tasks| ==> tasks[k].required != w && tasks[k].required != v)
        && StringOrder.Less(w.id, v.id))
  }

  ghost predicate RequiredFirst(tasks: seq<Task>, start: nat, j: nat, w: Version, v: Version)
    requires j < |tasks|
  {
    tasks[j].required == w && forall k :: start <= k <= j ==> tasks[k].required != v
  }

  lemma SoonerIsNeeded(tasks: seq<Task>, start: nat, w: Version, v: Version)
    requires start <= |tasks| && Sooner(tasks, start, w, v)
    ensures NeededSooner(tasks, start, w, v)
  {
    var m, n := NextUse(tasks, start, w), NextUse(tasks, start, v);
    if m < |tasks| {
      StringOrder.Trichotomy(w.id, v.id);
      assert RequiredFirst(tasks, start, m, w, v);
    }
  }

  /** The version evicted last: with it the cache was still too heavy, and all others evicted are needed later. */
  ghost predicate EvictedLast(p: Problem, start: nat, evicted: set<Version>, kept: set<Version>, v: Version)
    requires start <= |p.tasks| && evicted <= p.sizes.Keys && kept <= p.sizes.Keys
  {
    && v in evicted && Tokens(p.sizes, kept + {v}) > p.budget
    && forall u :: u in evicted && u != v ==> NeededSooner(p.tasks, start, v, u)
  }

  /** What the eviction loop takes is needed later than what it leaves, and it stops as soon as the budget holds. */
  ghost predicate EvictsLatest(p: Problem, start: nat, offered: set<Version>, kept: set<Version>)
    requires start <= |p.tasks| && offered <= p.sizes.Keys
  {
    && kept <= offered && Tokens(p.sizes, kept) <= p.budget
    && (forall v, w :: v in offered - kept && w in kept ==> NeededSooner(p.tasks, start, w, v))
    && (kept != offered ==> exists v :: EvictedLast(p, start, offered - kept, kept, v))
  }

  lemma VictimIsLatest(tasks: seq<Task>, start: nat, cache: set<Version>, v: Version, w: Version)
    requires start <= |tasks| && IsVictim(tasks, start, cache, v) && w in cache && w != v
    ensures NeededSooner(tasks, start, w, v)
  {
    SoonerIsNeeded(tasks, start, w, v);
  }

  lemma {:induction false} EvictIsLatest(p: Problem, start: nat, offered: set<Version>)
    requires start <= |p.tasks| && offered <= p.sizes.Keys && p.budget >= 0
    ensures EvictsLatest(p, start, offered, Evict(p, start, offered))
    decreases |offered|
  {
    if Tokens(p.sizes, offered) > p.budget {
      var x := Victim(p.tasks, start, offered);
      var rest, kept := offered - {x}, Evict(p, start, offered);
      EvictIsLatest(p, start, rest);
      forall v, w | v in offered - kept && w in kept
        ensures NeededSooner(p.tasks, start, w, v)
      {
        if v == x {
          VictimIsLatest(p.tasks, start, offered, x, w);
        }
      }
      LastOf(p, start, offered, x, kept);
    }
  }

  lemma LastOf(p: Problem, start: nat, offered: set<Version>, x: Version, kept: set<Version>)
    requires start <= |p.tasks| && offered <= p.sizes.Keys && Tokens(p.sizes, offered) > p.budget
    requires IsVictim(p.tasks, start, offered, x) && EvictsLatest(p, start, offered - {x}, kept)
    ensures exists v :: EvictedLast(p, start, offered - kept, kept, v)
  {
    var rest := offered - {x};
    if kept == rest {
      assert kept + {x} == offered;
      assert EvictedLast(p, start, offered - kept, kept, x);
    } else {
      var v :| EvictedLast(p, start, rest - kept, kept, v);
      VictimIsLatest(p.tasks, start, offered, x, v);
      assert EvictedLast(p, start, offered - kept, kept, v);
    }
  }

  /** What task i finds, whether that holds its version, and what is left after it, from the row before. */
  ghost predicate RowRule(p: Problem, rows: seq<Row>, i: nat)
    requires p.Listed() && i < |rows| == |p.tasks|
  {
    var t, row := p.tasks[i], rows[i];
    var held := if i == 0 then {} else rows[i - 1].after;
    && row.required == t.required
    && (forall v :: v in row.before <==> v in held && ValidityChanged(v) !in t.events)
    && (row.contained <==> t.required in row.before)
    && row.before <= p.sizes.Keys
    && EvictsLatest(p, i + 1, row.before + {t.required}, row.after)
  }

  /** Every row of a completed run obeys the rules. */
  lemma RowsFollowRules(p: Problem, rows: seq<Row>, i: nat)
    requires p.Listed() && p.budget >= 0 && i < |rows| == |p.tasks|
    requires forall k :: 0 <= k < |rows| ==> IsRow(p, Caches(p), k, rows[k])
    ensures RowRule(p, rows, i)
  {
    assert IsRow(p, Caches(p), i, rows[i]);
    if i > 0 {
      assert IsRow(p, Caches(p), i - 1, rows[i - 1]);
    }
    var t := p.tasks[i];
    forall v
      ensures v in Invalidated(t) <==> ValidityChanged(v) in t.events
    {
      if ValidityChanged(v) in t.events {
        assert ValidityChanged(v).ValidityChanged?;
      }
    }
    EvictIsLatest(p, i + 1, Offered(p, i, CacheAt(p, i)) + {t.required});
  }

  /** The tasks before the n-th whose rows say that they found their version. */
  function ContainedTasks(rows: seq<Row>, n: nat): set<nat>
    requires n <= |rows|
  {
    set k: nat | k < n && rows[k].contained
  }

  lemma ContainedSnoc(rows: seq<Row>, n: nat)
    requires n < |rows|
    ensures |ContainedTasks(rows, n + 1)| == |ContainedTasks(rows, n)| + if rows[n].contained then 1 else 0
  {
    assert ContainedTasks(rows, n + 1) == ContainedTasks(rows, n) + if rows[n].contained then {n} else {};
  }

  lemma RowHit(p: Problem, bs: seq<set<Version>>, rows: seq<Row>, k: nat)
    requires k < |rows| == |p.tasks| && |bs| == |p.tasks| + 1 && IsRow(p, bs, k, rows[k])
    ensures Hits(p, bs, k + 1) == Hits(p, bs, k) + if rows[k].contained then 1 else 0
  {
  }

  /** The hits of a run through some caches are the rows that say so. */
  lemma {:induction false} HitsAreContained(p: Problem, bs: seq<set<Version>>, rows: seq<Row>, n: nat)
    requires n <= |rows| == |p.tasks| && |bs| == |p.tasks| + 1
    requires forall k :: 0 <= k < |rows| ==> IsRow(p, bs, k, rows[k])
    ensures Hits(p, bs, n) == |ContainedTasks(rows, n)|
  {
    if n > 0 {
      HitsAreContained(p, bs, rows, n - 1);
      RowHit(p, bs, rows, n - 1);
      ContainedSnoc(rows, n - 1);
    }
  }
}
