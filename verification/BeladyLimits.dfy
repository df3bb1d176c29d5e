/** On which manifests the clairvoyant cache is always optimal: exactly, with and without returning versions. */
module BeladyLimits {
  import opened Collections
  import opened Belady

  /** The next cache when the offer fits, and when the given victim must go first. */
  lemma CacheIs(p: Problem, i: nat, offered: set<Version>, victim: Version)
    requires p.Listed() && p.budget >= 0 && 1 <= i <= |p.tasks|
    requires offered == Offered(p, i - 1, CacheAt(p, i - 1)) + {p.tasks[i - 1].required}
    ensures Tokens(p.sizes, offered) <= p.budget ==> CacheAt(p, i) == offered
    ensures Tokens(p.sizes, offered) > p.budget && IsVictim(p.tasks, i, offered, victim) ==>
      CacheAt(p, i) == Evict(p, i, offered - {victim})
  {
    if Tokens(p.sizes, offered) > p.budget && IsVictim(p.tasks, i, offered, victim) {
      VictimUnique(p.tasks, i, offered, victim, Victim(p.tasks, i, offered));
    }
  }

  lemma PairTokens(sizes: map<Version, nat>, a: Version, b: Version)
    requires a in sizes && b in sizes && a != b
    ensures Tokens(sizes, {a}) == sizes[a] && Tokens(sizes, {b}) == sizes[b]
    ensures Tokens(sizes, {a, b}) == sizes[a] + sizes[b]
  {
    EqualSizes(sizes, {a}, sizes[a]);
    EqualSizes(sizes, {b}, sizes[b]);
    TokensWithout(sizes, {a, b}, a);
    assert {a, b} - {a} == {b};
  }

  ghost function Found(p: Problem, caches: seq<set<Version>>, i: nat): nat
    requires i < |p.tasks| && i < |caches|
  {
    Hit(p.tasks[i].required, Offered(p, i, caches[i]))
  }

  lemma HitsStep(p: Problem, caches: seq<set<Version>>, i: nat)
    requires i < |p.tasks| && i < |caches|
    ensures Hits(p, caches, i + 1) == Hits(p, caches, i) + Found(p, caches, i)
  {
  }

  lemma HitsOfFour(p: Problem, caches: seq<set<Version>>)
    requires |p.tasks| == 4 && |caches| == 5
    ensures Hits(p, caches, 4) == Found(p, caches, 0) + Found(p, caches, 1) + Found(p, caches, 2) + Found(p, caches, 3)
  {
    HitsStep(p, caches, 0);
    HitsStep(p, caches, 1);
    HitsStep(p, caches, 2);
    HitsStep(p, caches, 3);
    assert Hits(p, caches, 0) == 0;
  }

  // ----- what optimality asks for -----

  /** The farthest-next-use cache contains at least as many tasks as the given policy. */
  ghost predicate NotBeaten(p: Problem, caches: seq<set<Version>>)
    requires p.Listed() && p.budget >= 0 && |caches| == |p.tasks| + 1
  {
    Hits(p, Caches(p), |p.tasks|) >= Hits(p, caches, |p.tasks|)
  }

  /** A run on a manifest with these sizes that raises nothing. */
  ghost predicate RunsOn(p: Problem, sizes: map<Version, nat>) {
    p.sizes == sizes && p.Listed() && p.budget >= 0
  }

  /** On every task list and budget, no demand policy beats the farthest-next-use cache. */
  ghost predicate AlwaysOptimal(sizes: map<Version, nat>) {
    forall p: Problem, caches :: RunsOn(p, sizes) && DemandPolicy(p, caches) ==> NotBeaten(p, caches)
  }

  /** The same on task lists without returning versions. */
  ghost predicate OptimalWithoutReturn(sizes: map<Version, nat>) {
    forall p: Problem, caches :: RunsOn(p, sizes) && NoReturn(p.tasks) && DemandPolicy(p, caches) ==>
      NotBeaten(p, caches)
  }

  // ----- two versions of different sizes -----

  /** Small, large, large, small, with room for the small version only. */
  ghost function SmallAtEnds(sizes: map<Version, nat>, a: Version, b: Version): (p: Problem)
    requires a in sizes && b in sizes
    ensures p.Listed()
  {
    Problem([Task(a, []), Task(b, []), Task(b, []), Task(a, [])], sizes, sizes[a])
  }

  lemma EvictsAlone(p: Problem, start: nat, b: Version)
    requires start <= |p.tasks| && p.budget >= 0 && b in p.sizes && p.sizes[b] > p.budget
    ensures Evict(p, start, {b}) == {}
  {
    EqualSizes(p.sizes, {b}, p.sizes[b]);
    assert IsVictim(p.tasks, start, {b}, Victim(p.tasks, start, {b}));
    assert {b} - {b} == {};
  }

  /** The large version pushes the small one out, and then does not fit itself. */
  lemma SmallAtEndsCaches(sizes: map<Version, nat>, a: Version, b: Version)
    requires a in sizes && b in sizes && sizes[a] < sizes[b]
    ensures var p := SmallAtEnds(sizes, a, b);
      CacheAt(p, 0) == {} && CacheAt(p, 1) == {a} && CacheAt(p, 2) == {} && CacheAt(p, 3) == {}
  {
    var p := SmallAtEnds(sizes, a, b);
    PairTokens(sizes, a, b);
    CacheIs(p, 1, {a}, a);
    assert NextUse(p.tasks, 2, b) == 2 && NextUse(p.tasks, 2, a) == 3;
    CacheIs(p, 2, {a, b}, a);
    assert {a, b} - {a} == {b};
    EvictsAlone(p, 2, b);
    EvictsAlone(p, 3, b);
    assert Offered(p, 2, {}) + {b} == {b};
  }

  ghost function KeepSmall(a: Version): seq<set<Version>> {
    [{}, {a}, {a}, {a}, {a}]
  }

  lemma KeepSmallIsPolicy(sizes: map<Version, nat>, a: Version, b: Version)
    requires a in sizes && b in sizes && a != b
    ensures DemandPolicy(SmallAtEnds(sizes, a, b), KeepSmall(a))
  {
    var p, other := SmallAtEnds(sizes, a, b), KeepSmall(a);
    PairTokens(sizes, a, b);
    assert DemandStep(p, other, 0);
    assert DemandStep(p, other, 1);
    assert DemandStep(p, other, 2);
    assert DemandStep(p, other, 3);
  }

  lemma SmallAtEndsHits(sizes: map<Version, nat>, a: Version, b: Version)
    requires a in sizes && b in sizes && sizes[a] < sizes[b]
    ensures var p := SmallAtEnds(sizes, a, b);
      Hits(p, Caches(p), 4) == 0 && Hits(p, KeepSmall(a), 4) == 1
  {
    var p, other := SmallAtEnds(sizes, a, b), KeepSmall(a);
    SmallAtEndsCaches(sizes, a, b);
    var bs := Caches(p);
    assert bs[0] == {} && bs[1] == {a} && bs[2] == {} && bs[3] == {};
    HitsOfFour(p, bs);
    HitsOfFour(p, other);
  }

  /** Any two different sizes in a manifest give a run in which keeping the smaller version contains more tasks. */
  lemma UnevenCanLose(sizes: map<Version, nat>, a: Version, b: Version)
    requires a in sizes && b in sizes && sizes[a] < sizes[b]
    ensures var p := SmallAtEnds(sizes, a, b);
      RunsOn(p, sizes) && NoReturn(p.tasks) && DemandPolicy(p, KeepSmall(a)) && !NotBeaten(p, KeepSmall(a))
  {
    KeepSmallIsPolicy(sizes, a, b);
    SmallAtEndsHits(sizes, a, b);
  }

  /** Without returning versions the cache is always optimal exactly if all versions of the manifest have one size. */
  lemma OptimalIffEven(sizes: map<Version, nat>)
    ensures OptimalWithoutReturn(sizes) <==> forall v, w :: v in sizes && w in sizes ==> sizes[v] == sizes[w]
  {
    if v, w :| v in sizes && w in sizes && sizes[v] < sizes[w] {
      UnevenCanLose(sizes, v, w);
    } else {
      var z := if v :| v in sizes then sizes[v] else 0;
      forall p: Problem, caches | RunsOn(p, sizes) && NoReturn(p.tasks) && DemandPolicy(p, caches)
        ensures NotBeaten(p, caches)
      {
        BeladyIsOptimal(p, z, caches);
      }
    }
  }

  // ----- a version that is invalidated and required again -----

  /** Two versions of one size, room for one, and an invalidation of the first just before it is required again. */
  ghost function Returning(sizes: map<Version, nat>, a: Version, b: Version): (p: Problem)
    requires a in sizes && b in sizes
    ensures p.Listed()
  {
    Problem([Task(a, []), Task(b, []), Task(a, [ValidityChanged(a)]), Task(b, [])], sizes, sizes[a])
  }

  /** The version that is about to be invalidated is the one with the nearest next use. */
  lemma ReturningCaches(sizes: map<Version, nat>, a: Version, b: Version)
    requires a in sizes && b in sizes && a != b && sizes[a] == sizes[b] > 0
    ensures var p := Returning(sizes, a, b);
      CacheAt(p, 0) == {} && CacheAt(p, 1) == {a} && CacheAt(p, 2) == {a} && CacheAt(p, 3) == {a}
  {
    var p := Returning(sizes, a, b);
    PairTokens(sizes, a, b);
    CacheIs(p, 1, {a}, a);
    assert NextUse(p.tasks, 2, a) == 2 && NextUse(p.tasks, 2, b) == 3;
    CacheIs(p, 2, {a, b}, b);
    assert {a, b} - {b} == {a};
    assert Offered(p, 2, {a}) == {};
    CacheIs(p, 3, {a}, a);
  }

  ghost function KeepSecond(a: Version, b: Version): seq<set<Version>> {
    [{}, {a}, {b}, {b}, {b}]
  }

  lemma KeepSecondIsPolicy(sizes: map<Version, nat>, a: Version, b: Version)
    requires a in sizes && b in sizes && a != b && sizes[a] == sizes[b]
    ensures DemandPolicy(Returning(sizes, a, b), KeepSecond(a, b))
  {
    var p, other := Returning(sizes, a, b), KeepSecond(a, b);
    PairTokens(sizes, a, b);
    assert DemandStep(p, other, 0);
    assert DemandStep(p, other, 1);
    assert DemandStep(p, other, 2);
    assert DemandStep(p, other, 3);
  }

  lemma ReturningHits(sizes: map<Version, nat>, a: Version, b: Version)
    requires a in sizes && b in sizes && a != b && sizes[a] == sizes[b] > 0
    ensures var p := Returning(sizes, a, b);
      Hits(p, Caches(p), 4) == 0 && Hits(p, KeepSecond(a, b), 4) == 1
  {
    var p, other := Returning(sizes, a, b), KeepSecond(a, b);
    ReturningCaches(sizes, a, b);
    var bs := Caches(p);
    assert bs[0] == {} && bs[1] == {a} && bs[2] == {a} && bs[3] == {a};
    HitsOfFour(p, bs);
    HitsOfFour(p, other);
  }

  /**
   * Any two versions of one positive size give a run in which dropping the one about to be invalidated contains
   * more.
   */
  lemma ReturnCanLose(sizes: map<Version, nat>, a: Version, b: Version)
    requires a in sizes && b in sizes && a != b && sizes[a] == sizes[b] > 0
    ensures var p := Returning(sizes, a, b);
      && RunsOn(p, sizes) && Returns(p.tasks, 0, 2, 2)
      && DemandPolicy(p, KeepSecond(a, b)) && !NotBeaten(p, KeepSecond(a, b))
  {
    KeepSecondIsPolicy(sizes, a, b);
    ReturningHits(sizes, a, b);
  }

  /** Of any two versions neither takes room, so nothing ever competes for the budget. */
  ghost predicate Uncontended(sizes: map<Version, nat>) {
    forall v, w :: v in sizes && w in sizes && v != w ==> sizes[v] == 0
  }

  /** Without competition whatever a demand policy can keep, the cache keeps as well. */
  lemma KeepsAll(p: Problem, start: nat, offered: set<Version>, kept: set<Version>)
    requires start <= |p.tasks| && p.budget >= 0 && offered <= p.sizes.Keys && Uncontended(p.sizes)
    requires kept <= offered && Tokens(p.sizes, kept) <= p.budget
    ensures kept <= Evict(p, start, offered)
  {
    if Tokens(p.sizes, offered) > p.budget {
      var x :| x in offered && (kept != {} ==> x in kept);
      if v :| v in offered && v != x {
        EqualSizes(p.sizes, offered, 0);
      } else {
        assert offered == {x};
        assert kept == {} || kept == offered;
      }
    }
  }

  lemma {:induction false} ContainsAll(p: Problem, caches: seq<set<Version>>, i: nat)
    requires p.Listed() && p.budget >= 0 && Uncontended(p.sizes) && DemandPolicy(p, caches) && i <= |p.tasks|
    ensures caches[i] <= CacheAt(p, i)
    ensures Hits(p, Caches(p), i) >= Hits(p, caches, i)
  {
    if i > 0 {
      ContainsAll(p, caches, i - 1);
      assert DemandStep(p, caches, i - 1);
      var mine, theirs := Offered(p, i - 1, CacheAt(p, i - 1)), Offered(p, i - 1, caches[i - 1]);
      assert theirs <= mine;
      KeepsAll(p, i, mine + {p.tasks[i - 1].required}, caches[i]);
    }
  }

  /** With returning versions allowed the cache is always optimal exactly if no two versions compete for room. */
  lemma OptimalIffUncontended(sizes: map<Version, nat>)
    ensures AlwaysOptimal(sizes) <==> Uncontended(sizes)
  {
    if v, w :| v in sizes && w in sizes && v != w && sizes[v] > 0 {
      if sizes[v] == sizes[w] {
        ReturnCanLose(sizes, v, w);
      } else if sizes[v] < sizes[w] {
        UnevenCanLose(sizes, v, w);
      } else {
        UnevenCanLose(sizes, w, v);
      }
    } else {
      forall p: Problem, caches | RunsOn(p, sizes) && DemandPolicy(p, caches)
        ensures NotBeaten(p, caches)
      {
        ContainsAll(p, caches, |p.tasks|);
      }
    }
  }
}
