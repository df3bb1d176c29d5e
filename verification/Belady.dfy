/** The clairvoyant gold cache: farthest-next-use eviction (src/karc/bench/e5_killgate.py). */
module Belady {
  import opened Collections
  import StringOrder

  datatype Version = Version(id: string)

  datatype Event = ValidityChanged(version: Version) | Corrected(version: Version)

  /** One task: the version its answer needs, and the events applied before it. */
  datatype Task = Task(required: Version, events: seq<Event>)

  datatype Problem = Problem(tasks: seq<Task>, sizes: map<Version, nat>, budget: int) {
    /** Every required version is listed in the manifest. */
    ghost predicate Listed() {
      forall i :: 0 <= i < |tasks| ==> tasks[i].required in sizes
    }
  }

  function Invalidated(t: Task): set<Version> {
    set e | e in t.events && e.ValidityChanged? :: e.version
  }

  /** required.index(v, start), with the number of tasks standing for infinity. */
  function NextUse(tasks: seq<Task>, start: nat, v: Version): (r: nat)
    requires start <= |tasks|
    ensures start <= r <= |tasks|
    ensures r < |tasks| ==> tasks[r].required == v
    ensures forall k :: start <= k < r ==> tasks[k].required != v
    decreases |tasks| - start
  {
    if start == |tasks| || tasks[start].required == v then start else NextUse(tasks, start + 1, v)
  }

  /** The order of the pairs (next use, version) by which the victim is the maximum. */
  predicate Sooner(tasks: seq<Task>, start: nat, a: Version, b: Version)
    requires start <= |tasks|
  {
    var m, n := NextUse(tasks, start, a), NextUse(tasks, start, b);
    m < n || (m == n && StringOrder.Less(a.id, b.id))
  }

  predicate IsVictim(tasks: seq<Task>, start: nat, cache: set<Version>, v: Version)
    requires start <= |tasks|
  {
    v in cache && forall w :: w in cache && w != v ==> Sooner(tasks, start, w, v)
  }

  lemma {:induction false} VictimExists(tasks: seq<Task>, start: nat, cache: set<Version>)
    requires start <= |tasks| && cache != {}
    ensures exists v :: IsVictim(tasks, start, cache, v)
  {
    var x :| x in cache;
    var rest := cache - {x};
    if rest == {} {
      assert cache == {x};
      assert IsVictim(tasks, start, cache, x);
    } else {
      VictimExists(tasks, start, rest);
      var v :| IsVictim(tasks, start, rest, v);
      StringOrder.Trichotomy(x.id, v.id);
      if Sooner(tasks, start, x, v) {
        assert IsVictim(tasks, start, cache, v);
      } else {
        forall w | w in cache && w != x
          ensures Sooner(tasks, start, w, x)
        {
          if w != v {
            SoonerTransitive(tasks, start, w, v, x);
          }
        }
        assert IsVictim(tasks, start, cache, x);
      }
    }
  }

  lemma SoonerTransitive(tasks: seq<Task>, start: nat, a: Version, b: Version, c: Version)
    requires start <= |tasks|
    requires Sooner(tasks, start, a, b) && Sooner(tasks, start, b, c)
    ensures Sooner(tasks, start, a, c)
  {
    if StringOrder.Less(a.id, b.id) && StringOrder.Less(b.id, c.id) {
      StringOrder.Transitive(a.id, b.id, c.id);
    }
  }

  lemma VictimUnique(tasks: seq<Task>, start: nat, cache: set<Version>, v: Version, w: Version)
    requires start <= |tasks|
    requires IsVictim(tasks, start, cache, v) && IsVictim(tasks, start, cache, w)
    ensures v == w
  {
    if v != w {
      StringOrder.Trichotomy(v.id, w.id);
    }
  }

  ghost function Victim(tasks: seq<Task>, start: nat, cache: set<Version>): (v: Version)
    requires start <= |tasks| && cache != {}
    ensures IsVictim(tasks, start, cache, v)
  {
    VictimExists(tasks, start, cache);
    var v :| IsVictim(tasks, start, cache, v);
    v
  }

  // ----- token totals -----

  /** The token total of a set of versions. */
  ghost function Tokens(sizes: map<Version, nat>, cache: set<Version>): nat
    requires cache <= sizes.Keys
  {
    if cache == {} then 0
    else
      var v :| v in cache;
      sizes[v] + Tokens(sizes, cache - {v})
  }

  lemma {:induction false} TokensWithout(sizes: map<Version, nat>, cache: set<Version>, x: Version)
    requires cache <= sizes.Keys && x in cache
    ensures Tokens(sizes, cache) == sizes[x] + Tokens(sizes, cache - {x})
  {
    var v :| v in cache && Tokens(sizes, cache) == sizes[v] + Tokens(sizes, cache - {v});
    if v != x {
      TokensWithout(sizes, cache - {v}, x);
      TokensWithout(sizes, cache - {x}, v);
      assert cache - {v} - {x} == cache - {x} - {v};
    }
  }

  /** All versions of the cache are listed with the same size. */
  ghost predicate Uniform(sizes: map<Version, nat>, cache: set<Version>, z: nat) {
    forall v :: v in cache ==> v in sizes && sizes[v] == z
  }

  lemma {:induction false} EqualSizes(sizes: map<Version, nat>, cache: set<Version>, z: nat)
    requires Uniform(sizes, cache, z)
    ensures Tokens(sizes, cache) == z * |cache|
  {
    if cache != {} {
      var x :| x in cache;
      TokensWithout(sizes, cache, x);
      EqualSizes(sizes, cache - {x}, z);
    }
  }

  lemma FewerWeighLess(z: nat, a: nat, b: nat)
    requires a <= b
    ensures z * a <= z * b
  {
    assert z * b == z * a + z * (b - a);
  }

  /** Of two caches of one size the heavier one holds more versions. */
  lemma MoreHeld(sizes: map<Version, nat>, c: set<Version>, d: set<Version>, z: nat)
    requires Uniform(sizes, c, z) && Uniform(sizes, d, z) && Tokens(sizes, c) > Tokens(sizes, d)
    ensures |c| > |d|
  {
    EqualSizes(sizes, c, z);
    EqualSizes(sizes, d, z);
    if |c| <= |d| {
      FewerWeighLess(z, |c|, |d|);
    }
  }

  // ----- the cache -----

  /** The eviction loop: drop the farthest next use until the budget holds. */
  ghost function Evict(p: Problem, start: nat, cache: set<Version>): (r: set<Version>)
    requires start <= |p.tasks| && cache <= p.sizes.Keys && p.budget >= 0
    ensures r <= cache
    ensures Tokens(p.sizes, r) <= p.budget
    decreases |cache|
  {
    if Tokens(p.sizes, cache) <= p.budget then cache
    else Evict(p, start, cache - {Victim(p.tasks, start, cache)})
  }

  /** What task i finds in the cache: the earlier contents without what its events invalidate. */
  ghost function Offered(p: Problem, i: nat, cache: set<Version>): set<Version>
    requires i < |p.tasks|
  {
    cache - Invalidated(p.tasks[i])
  }

  /** The cache after the first i tasks. */
  ghost function CacheAt(p: Problem, i: nat): (r: set<Version>)
    requires p.Listed() && i <= |p.tasks| && p.budget >= 0
    ensures r <= p.sizes.Keys && Tokens(p.sizes, r) <= p.budget
  {
    if i == 0 then {}
    else Evict(p, i, Offered(p, i - 1, CacheAt(p, i - 1)) + {p.tasks[i - 1].required})
  }

  function Hit(v: Version, cache: set<Version>): nat {
    if v in cache then 1 else 0
  }

  /** How many of the first i tasks find their version, for any sequence of caches. */
  ghost function Hits(p: Problem, caches: seq<set<Version>>, i: nat): nat
    requires i <= |p.tasks| && i <= |caches|
  {
    if i == 0 then 0
    else
      Hits(p, caches, i - 1) + Hit(p.tasks[i - 1].required, Offered(p, i - 1, caches[i - 1]))
  }

  ghost function Caches(p: Problem): (r: seq<set<Version>>)
    requires p.Listed() && p.budget >= 0
    ensures |r| == |p.tasks| + 1
    ensures forall i :: 0 <= i <= |p.tasks| ==> r[i] == CacheAt(p, i)
  {
    seq(|p.tasks| + 1, i requires 0 <= i <= |p.tasks| => CacheAt(p, i))
  }

  /** Any policy that only ever stores the version just requested (or bypasses it) and stays within the budget. */
  ghost predicate DemandPolicy(p: Problem, caches: seq<set<Version>>) {
    && |caches| == |p.tasks| + 1
    && caches[0] == {}
    && forall i :: 0 <= i < |p.tasks| ==> DemandStep(p, caches, i)
  }

  ghost predicate DemandStep(p: Problem, caches: seq<set<Version>>, i: nat)
    requires i < |p.tasks| && |caches| == |p.tasks| + 1
  {
    && caches[i + 1] <= p.sizes.Keys
    && Tokens(p.sizes, caches[i + 1]) <= p.budget
    && caches[i + 1] <= Offered(p, i, caches[i]) + {p.tasks[i].required}
  }

  ghost predicate BeladyStep(p: Problem, caches: seq<set<Version>>, i: nat)
    requires p.Listed() && i < |p.tasks| && |caches| == |p.tasks| + 1 && p.budget >= 0
  {
    && caches[i] <= p.sizes.Keys
    && caches[i + 1] == Evict(p, i + 1, Offered(p, i, caches[i]) + {p.tasks[i].required})
  }

  lemma BeladyIsDemandPolicy(p: Problem)
    requires p.Listed() && p.budget >= 0
    ensures DemandPolicy(p, Caches(p))
  {
  }

  // ----- optimality -----

  /** Tasks k and j require the same version, and task i invalidates it in between. */
  ghost predicate Returns(tasks: seq<Task>, k: nat, i: nat, j: nat) {
    && k < i <= j < |tasks|
    && tasks[k].required == tasks[j].required && tasks[j].required in Invalidated(tasks[i])
  }

  /** No version that a task required is invalidated later and then required again. */
  ghost predicate NoReturn(tasks: seq<Task>) {
    forall k, i, j :: !Returns(tasks, k, i, j)
  }

  ghost predicate RequiredBefore(tasks: seq<Task>, i: nat, v: Version)
    requires i <= |tasks|
  {
    exists k :: 0 <= k < i && tasks[k].required == v
  }

  /** A cache before task i holds only versions that earlier tasks required. */
  ghost predicate Requested(tasks: seq<Task>, i: nat, cache: set<Version>)
    requires i <= |tasks|
  {
    forall v :: v in cache ==> RequiredBefore(tasks, i, v)
  }

  ghost function Due(tasks: seq<Task>, start: nat, t: nat, cache: set<Version>): set<Version>
    requires start <= |tasks|
  {
    set v | v in cache && NextUse(tasks, start, v) < t
  }

  /** Serving task i: its version leaves the count of what is due and, if it was there, becomes a hit. */
  lemma ServeCounts(tasks: seq<Task>, i: nat, t: nat, cache: set<Version>)
    requires i < |tasks| && i < t
    ensures var v := tasks[i].required;
      |Due(tasks, i, t, cache)| == |Due(tasks, i + 1, t, cache - {v})| + if v in cache then 1 else 0
  {
    var v := tasks[i].required;
    assert Due(tasks, i, t, cache) - {v} == Due(tasks, i + 1, t, cache - {v});
  }

  lemma StoreCounts(tasks: seq<Task>, start: nat, t: nat, cache: set<Version>, v: Version)
    requires start <= |tasks|
    ensures |Due(tasks, start, t, cache + {v})| ==
            |Due(tasks, start, t, cache - {v})| + if NextUse(tasks, start, v) < t then 1 else 0
  {
    assert Due(tasks, start, t, cache + {v}) - {v} == Due(tasks, start, t, cache - {v});
  }

  lemma InvalidationCounts(tasks: seq<Task>, i: nat, t: nat, cache: set<Version>)
    requires NoReturn(tasks) && i < |tasks| && t <= |tasks| && Requested(tasks, i, cache)
    ensures Due(tasks, i, t, cache) == Due(tasks, i, t, cache - Invalidated(tasks[i]))
  {
    forall v | v in Due(tasks, i, t, cache)
      ensures v !in Invalidated(tasks[i])
    {
      assert RequiredBefore(tasks, i, v);
      var k :| 0 <= k < i && tasks[k].required == v;
      assert !Returns(tasks, k, i, NextUse(tasks, i, v));
    }
  }

  /** What a demand policy keeps after task i was required by then. */
  lemma RequestedStep(tasks: seq<Task>, i: nat, cache: set<Version>, next: set<Version>)
    requires i < |tasks| && Requested(tasks, i, cache) && next <= cache + {tasks[i].required}
    ensures Requested(tasks, i + 1, next)
  {
    forall v | v in next
      ensures RequiredBefore(tasks, i + 1, v)
    {
      assert v in cache ==> RequiredBefore(tasks, i, v);
    }
  }

  /** The exchange argument: for every horizon, b plus what C has due is at least s plus what D has due. */
  ghost predicate Ahead(tasks: seq<Task>, start: nat, b: nat, c: set<Version>, s: nat, d: set<Version>)
    requires start <= |tasks|
  {
    forall t: nat :: t <= |tasks| ==> AheadBy(tasks, start, t, b, c, s, d)
  }

  ghost predicate AheadBy(tasks: seq<Task>, start: nat, t: nat, b: nat, c: set<Version>, s: nat, d: set<Version>)
    requires start <= |tasks|
  {
    b + |Due(tasks, start, t, c)| >= s + |Due(tasks, start, t, d)|
  }

  lemma EvictOneKeepsAhead(tasks: seq<Task>, start: nat, b: nat, c: set<Version>, s: nat, d: set<Version>)
    requires start <= |tasks| && b >= s && |c| > |d|
    requires Ahead(tasks, start, b, c, s, d)
    ensures Ahead(tasks, start, b, c - {Victim(tasks, start, c)}, s, d)
  {
    var z := Victim(tasks, start, c);
    forall t: nat | t <= |tasks|
      ensures AheadBy(tasks, start, t, b, c - {z}, s, d)
    {
      assert AheadBy(tasks, start, t, b, c, s, d);
      if NextUse(tasks, start, z) < t {
        assert Due(tasks, start, t, c - {z}) == c - {z};
        SubsetCardinality(Due(tasks, start, t, d), d);
      } else {
        assert Due(tasks, start, t, c - {z}) == Due(tasks, start, t, c);
      }
    }
  }

  lemma {:induction false} EvictKeepsAhead(p: Problem, start: nat, z: nat, b: nat, c: set<Version>,
                                           s: nat, d: set<Version>)
    requires start <= |p.tasks| && b >= s && p.budget >= 0
    requires Uniform(p.sizes, c, z) && Uniform(p.sizes, d, z) && Tokens(p.sizes, d) <= p.budget
    requires Ahead(p.tasks, start, b, c, s, d)
    ensures Ahead(p.tasks, start, b, Evict(p, start, c), s, d)
    decreases |c|
  {
    if Tokens(p.sizes, c) > p.budget {
      MoreHeld(p.sizes, c, d, z);
      EvictOneKeepsAhead(p.tasks, start, b, c, s, d);
      EvictKeepsAhead(p, start, z, b, c - {Victim(p.tasks, start, c)}, s, d);
    }
  }

  lemma ServeAtHorizon(tasks: seq<Task>, i: nat, t: nat, b: nat, c: set<Version>, s: nat, d: set<Version>,
                       d': set<Version>)
    requires NoReturn(tasks) && i < t <= |tasks| && Requested(tasks, i, c) && Requested(tasks, i, d)
    requires Ahead(tasks, i, b, c, s, d)
    requires d' <= d - Invalidated(tasks[i]) + {tasks[i].required}
    ensures var v := tasks[i].required;
      var oc, od := c - Invalidated(tasks[i]), d - Invalidated(tasks[i]);
      AheadBy(tasks, i + 1, t, b + Hit(v, oc), oc + {v}, s + Hit(v, od), d')
  {
    assert AheadBy(tasks, i, t, b, c, s, d);
    var v := tasks[i].required;
    var oc, od := c - Invalidated(tasks[i]), d - Invalidated(tasks[i]);
    InvalidationCounts(tasks, i, t, c);
    InvalidationCounts(tasks, i, t, d);
    ServeCounts(tasks, i, t, oc);
    ServeCounts(tasks, i, t, od);
    StoreCounts(tasks, i + 1, t, oc, v);
    StoreCounts(tasks, i + 1, t, od, v);
    SubsetCardinality(Due(tasks, i + 1, t, d'), Due(tasks, i + 1, t, od + {v}));
  }

  /** Task i: both sides are offered their caches and count a hit; the left side then stores the version. */
  lemma ServeKeepsAhead(tasks: seq<Task>, i: nat, b: nat, c: set<Version>, s: nat, d: set<Version>, d': set<Version>)
    requires NoReturn(tasks) && i < |tasks| && Requested(tasks, i, c) && Requested(tasks, i, d)
    requires Ahead(tasks, i, b, c, s, d)
    requires d' <= d - Invalidated(tasks[i]) + {tasks[i].required}
    ensures var v := tasks[i].required;
      var oc, od := c - Invalidated(tasks[i]), d - Invalidated(tasks[i]);
      b + Hit(v, oc) >= s + Hit(v, od) && Ahead(tasks, i + 1, b + Hit(v, oc), oc + {v}, s + Hit(v, od), d')
  {
    var v := tasks[i].required;
    var oc, od := c - Invalidated(tasks[i]), d - Invalidated(tasks[i]);
    ServeAtHorizon(tasks, i, i + 1, b, c, s, d, d');
    var b', c', s', next := b + Hit(v, oc), oc + {v}, s + Hit(v, od), i + 1;
    forall t: nat | t <= |tasks|
      ensures AheadBy(tasks, next, t, b', c', s', d')
    {
      if t <= i {
      } else {
        ServeAtHorizon(tasks, i, t, b, c, s, d, d');
      }
    }
  }

  lemma ServeAhead(p: Problem, i: nat, b: nat, c: set<Version>, s: nat, d: set<Version>, d': set<Version>)
    requires NoReturn(p.tasks) && i < |p.tasks| && Requested(p.tasks, i, c) && Requested(p.tasks, i, d)
    requires Ahead(p.tasks, i, b, c, s, d)
    requires d' <= Offered(p, i, d) + {p.tasks[i].required}
    ensures var v := p.tasks[i].required;
      var b', s' := b + Hit(v, Offered(p, i, c)), s + Hit(v, Offered(p, i, d));
      b' >= s' && Ahead(p.tasks, i + 1, b', Offered(p, i, c) + {v}, s', d')
  {
    ServeKeepsAhead(p.tasks, i, b, c, s, d, d');
  }

  ghost predicate StoresRequest(p: Problem, caches: seq<set<Version>>, k: nat)
    requires k < |p.tasks| && |caches| == |p.tasks| + 1
  {
    caches[k + 1] <= caches[k] + {p.tasks[k].required}
  }

  lemma {:induction false} HoldsRequested(p: Problem, caches: seq<set<Version>>, i: nat)
    requires i <= |p.tasks| && |caches| == |p.tasks| + 1 && caches[0] == {}
    requires forall k :: 0 <= k < i ==> StoresRequest(p, caches, k)
    ensures Requested(p.tasks, i, caches[i])
  {
    if i > 0 {
      HoldsRequested(p, caches, i - 1);
      assert StoresRequest(p, caches, i - 1);
      RequestedStep(p.tasks, i - 1, caches[i - 1], caches[i]);
    }
  }

  lemma DemandHoldsRequested(p: Problem, caches: seq<set<Version>>, i: nat)
    requires i <= |p.tasks| && DemandPolicy(p, caches)
    ensures Requested(p.tasks, i, caches[i])
  {
    forall k | 0 <= k < i
      ensures StoresRequest(p, caches, k)
    {
      assert DemandStep(p, caches, k);
    }
    HoldsRequested(p, caches, i);
  }

  /** The versions that the tasks require all have the same size; what no task requires may have any. */
  ghost predicate Even(p: Problem, z: nat) {
    p.Listed() && forall k :: 0 <= k < |p.tasks| ==> p.sizes[p.tasks[k].required] == z
  }

  lemma RequestedIsUniform(p: Problem, z: nat, i: nat, cache: set<Version>)
    requires Even(p, z) && i <= |p.tasks| && Requested(p.tasks, i, cache)
    ensures Uniform(p.sizes, cache, z)
  {
    forall v | v in cache
      ensures v in p.sizes && p.sizes[v] == z
    {
      assert RequiredBefore(p.tasks, i, v);
      var k :| 0 <= k < i && p.tasks[k].required == v;
    }
  }

  /** What either cache holds after task k, and what the left one is offered there, has the one size. */
  lemma StepIsUniform(p: Problem, z: nat, k: nat, b: set<Version>, d: set<Version>)
    requires Even(p, z) && k < |p.tasks| && Requested(p.tasks, k, b) && Requested(p.tasks, k, d)
    ensures Uniform(p.sizes, Offered(p, k, b) + {p.tasks[k].required}, z)
    ensures Uniform(p.sizes, Offered(p, k, d) + {p.tasks[k].required}, z)
  {
    RequestedStep(p.tasks, k, b, Offered(p, k, b) + {p.tasks[k].required});
    RequestedStep(p.tasks, k, d, Offered(p, k, d) + {p.tasks[k].required});
    RequestedIsUniform(p, z, k + 1, Offered(p, k, b) + {p.tasks[k].required});
    RequestedIsUniform(p, z, k + 1, Offered(p, k, d) + {p.tasks[k].required});
  }

  /** The two runs over the first i tasks, one task at a time. */
  lemma {:induction false} StaysAhead(p: Problem, z: nat, bs: seq<set<Version>>, caches: seq<set<Version>>, i: nat)
    requires Even(p, z) && p.budget >= 0 && NoReturn(p.tasks)
    requires i <= |p.tasks| && DemandPolicy(p, bs) && DemandPolicy(p, caches)
    requires forall k :: 0 <= k < i ==> BeladyStep(p, bs, k)
    ensures Hits(p, bs, i) >= Hits(p, caches, i)
    ensures Ahead(p.tasks, i, Hits(p, bs, i), bs[i], Hits(p, caches, i), caches[i])
  {
    if i == 0 {
      assert forall t: nat :: t <= |p.tasks| ==> AheadBy(p.tasks, 0, t, 0, {}, 0, {});
    } else {
      var k := i - 1;
      StaysAhead(p, z, bs, caches, k);
      assert BeladyStep(p, bs, k) && DemandStep(p, caches, k);
      DemandHoldsRequested(p, bs, k);
      DemandHoldsRequested(p, caches, k);
      ServeAhead(p, k, Hits(p, bs, k), bs[k], Hits(p, caches, k), caches[k], caches[i]);
      StepIsUniform(p, z, k, bs[k], caches[k]);
      var offered := Offered(p, k, bs[k]) + {p.tasks[k].required};
      EvictKeepsAhead(p, i, z, Hits(p, bs, i), offered, Hits(p, caches, i), caches[i]);
    }
  }

  /** With required versions of one size, none invalidated and required again, no demand policy contains more tasks. */
  lemma BeladyIsOptimal(p: Problem, z: nat, caches: seq<set<Version>>)
    requires Even(p, z) && p.budget >= 0 && NoReturn(p.tasks)
    requires DemandPolicy(p, caches)
    ensures Hits(p, Caches(p), |p.tasks|) >= Hits(p, caches, |p.tasks|)
  {
    forall k | 0 <= k < |p.tasks|
      ensures BeladyStep(p, Caches(p), k)
    {
    }
    BeladyIsDemandPolicy(p);
    StaysAhead(p, z, Caches(p), caches, |p.tasks|);
  }

  // ----- the loop -----

  datatype Failure = EmptyMax | KeyError | DivisionByZero

  datatype Row = Row(required: Version, before: set<Version>, contained: bool, after: set<Version>)

  datatype Report = Report(containedTasks: nat, rate: real, rows: seq<Row>)

  datatype Outcome = Completed(report: Report) | Raised(failure: Failure)

  datatype Pass = Passed(row: Row) | Failed(failure: Failure)

  method TokenTotal(sizes: map<Version, nat>, cache: set<Version>) returns (total: nat)
    requires cache <= sizes.Keys
    ensures total == Tokens(sizes, cache)
  {
    total := 0;
    var rest := cache;
    while rest != {}
      invariant rest <= cache
      invariant total + Tokens(sizes, rest) == Tokens(sizes, cache)
    {
      var v :| v in rest;
      TokensWithout(sizes, rest, v);
      total := total + sizes[v];
      rest := rest - {v};
    }
  }

  method EvictToBudget(p: Problem, start: nat, offered: set<Version>) returns (cache: Option<set<Version>>)
    requires start <= |p.tasks| && offered <= p.sizes.Keys
    ensures cache.None? <==> p.budget < 0
    ensures p.budget >= 0 ==> cache == Some(Evict(p, start, offered))
  {
    var c := offered;
    var total := TokenTotal(p.sizes, c);
    while total > p.budget
      invariant c <= offered && total == Tokens(p.sizes, c)
      invariant p.budget >= 0 ==> Evict(p, start, c) == Evict(p, start, offered)
      decreases |c|
    {
      if c == {} {
        return None;
      }
      VictimExists(p.tasks, start, c);
      var victim :| IsVictim(p.tasks, start, c, victim);
      VictimUnique(p.tasks, start, c, victim, Victim(p.tasks, start, c));
      c := c - {victim};
      total := TokenTotal(p.sizes, c);
    }
    cache := Some(c);
  }

  /** The record of task i: what it found, whether that held its version, and what the eviction loop left. */
  ghost predicate IsRow(p: Problem, caches: seq<set<Version>>, i: nat, row: Row)
    requires i < |p.tasks| && |caches| == |p.tasks| + 1
  {
    && row.required == p.tasks[i].required
    && row.before == Offered(p, i, caches[i])
    && row.contained == (row.required in row.before)
    && row.after == caches[i + 1]
  }

  /** The body of the task loop: invalidate, look up, store, weigh, evict. Only the new version can be unlisted. */
  method ServeTask(p: Problem, i: nat, held: set<Version>) returns (r: Pass)
    requires i < |p.tasks| && held <= p.sizes.Keys
    ensures r.Failed? <==> p.tasks[i].required !in p.sizes || p.budget < 0
    ensures r.Failed? ==> r.failure == if p.tasks[i].required !in p.sizes then KeyError else EmptyMax
    ensures r.Passed? ==>
      && r.row.required == p.tasks[i].required
      && r.row.before == Offered(p, i, held)
      && r.row.contained == (r.row.required in r.row.before)
      && r.row.after == Evict(p, i + 1, r.row.before + {r.row.required})
  {
    var version := p.tasks[i].required;
    var cache := held - Invalidated(p.tasks[i]);
    var hit := version in cache;
    var before := cache;
    if version !in p.sizes {
      return Failed(KeyError);
    }
    var kept := EvictToBudget(p, i + 1, cache + {version});
    r := match kept case None => Failed(EmptyMax) case Some(after) => Passed(Row(version, before, hit, after));
  }

  /** The variables before task i, for a run through the caches bs. */
  ghost predicate Served(p: Problem, bs: seq<set<Version>>, i: nat, hits: nat, rows: seq<Row>)
    requires |bs| == |p.tasks| + 1 && i <= |p.tasks|
  {
    && hits == Hits(p, bs, i)
    && |rows| == i && forall k :: 0 <= k < i ==> IsRow(p, bs, k, rows[k])
  }

  lemma ServedStep(p: Problem, bs: seq<set<Version>>, i: nat, hits: nat, rows: seq<Row>, row: Row)
    requires |bs| == |p.tasks| + 1 && i < |p.tasks| && Served(p, bs, i, hits, rows) && IsRow(p, bs, i, row)
    ensures Served(p, bs, i + 1, hits + (if row.contained then 1 else 0), rows + [row])
  {
  }

  /** The variables before task i: every version so far was listed and, if all are, the run follows the caches. */
  ghost predicate Running(p: Problem, i: nat, cache: set<Version>, hits: nat, rows: seq<Row>)
    requires i <= |p.tasks|
  {
    && cache <= p.sizes.Keys
    && (i > 0 ==> p.budget >= 0)
    && (forall k :: 0 <= k < i ==> p.tasks[k].required in p.sizes)
    && (p.Listed() && p.budget >= 0 ==> cache == Caches(p)[i] && Served(p, Caches(p), i, hits, rows))
  }

  /** Why a run raises: no task, a version without a size, or a budget that not even an empty cache meets. */
  ghost function Failing(p: Problem): Failure {
    if p.tasks == [] then DivisionByZero
    else if p.budget < 0 && p.tasks[0].required in p.sizes then EmptyMax
    else KeyError
  }

  method BeladyContainment(p: Problem) returns (r: Outcome)
    ensures r.Raised? <==> p.tasks == [] || p.budget < 0 || !p.Listed()
    ensures r.Raised? ==> r.failure == Failing(p)
    ensures r.Completed? ==>
      var n, rows := |p.tasks|, r.report.rows;
      && |rows| == n
      && r.report.containedTasks == Hits(p, Caches(p), n)
      && r.report.rate == r.report.containedTasks as real / n as real
      && forall i :: 0 <= i < n ==> IsRow(p, Caches(p), i, rows[i])
  {
    if |p.tasks| == 0 {
      return Raised(DivisionByZero);
    }
    var cache: set<Version>, hits: nat, rows: seq<Row> := {}, 0, [];
    for i := 0 to |p.tasks|
      invariant Running(p, i, cache, hits, rows)
    {
      var pass := ServeTask(p, i, cache);
      if pass.Failed? {
        return Raised(pass.failure);
      }
      if p.Listed() {
        ServedStep(p, Caches(p), i, hits, rows, pass.row);
      }
      cache := pass.row.after;
      hits := hits + if pass.row.contained then 1 else 0;
      rows := rows + [pass.row];
    }
    r := Completed(Report(hits, hits as real / |p.tasks| as real, rows));
  }
}
