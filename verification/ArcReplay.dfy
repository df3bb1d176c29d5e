/** Whole replays: ARC against a plain LRU of the same capacity, and what the counters can say. */
module ArcReplay {
  import opened Collections
  import opened Arc
  import opened ArcRecency

  /** The state after a stream and the outcome of each of its references; None if one of them fails. */
  function Run(c: nat, stream: seq<Key>): (r: Option<(State, seq<Outcome>)>)
    ensures r.Some? ==> |r.value.1| == |stream|
  {
    if stream == [] then Some((Empty(c), []))
    else
      match Run(c, stream[..|stream| - 1])
      case None => None
      case Some((s, outs)) =>
        match Access(s, stream[|stream| - 1])
        case None => None
        case Some((t, o)) => Some((t, outs + [o]))
  }

  lemma Advance(s: State, stream: seq<Key>) returns (r: State, o: Outcome)
    requires stream != [] && Inv(s) && Tracks(s, stream[..|stream| - 1])
    ensures Access(s, stream[|stream| - 1]) == Some((r, o))
    ensures Inv(r) && Tracks(r, stream) && r.c == s.c
  {
    var h, x := stream[..|stream| - 1], stream[|stream| - 1];
    AccessTracks(s, h, x);
    assert stream == h + [x];
    r, o := Access(s, x).value.0, Access(s, x).value.1;
  }

  lemma {:induction false} RunState(c: nat, stream: seq<Key>) returns (s: State, outs: seq<Outcome>)
    requires c >= 1
    ensures Run(c, stream) == Some((s, outs))
    ensures Inv(s) && s.c == c && Tracks(s, stream)
  {
    if stream == [] {
      s, outs := Empty(c), [];
    } else {
      var t, before := RunState(c, stream[..|stream| - 1]);
      var r, o := Advance(t, stream);
      s, outs := r, before + [o];
    }
  }

  /** No popitem in _replace or access ever meets an empty dictionary, on any stream. */
  lemma RunSucceeds(c: nat, stream: seq<Key>)
    requires c >= 1
    ensures Run(c, stream).Some?
    ensures var s := Run(c, stream).value.0; Inv(s) && s.c == c && Tracks(s, stream)
  {
    var s, outs := RunState(c, stream);
  }

  /** Each list is in recency order, T1 was used after B1 and T2 after B2: what is dropped is the oldest of its side. */
  lemma ListsInRecencyOrder(c: nat, stream: seq<Key>)
    requires c >= 1
    ensures Run(c, stream).Some?
    ensures var s := Run(c, stream).value.0;
      && ByRecency(stream, s.t1) && ByRecency(stream, s.t2) && ByRecency(stream, s.b1) && ByRecency(stream, s.b2)
      && (forall x, y :: x in s.b1 && y in s.t1 ==> LastUse(stream, x) < LastUse(stream, y))
      && (forall x, y :: x in s.b2 && y in s.t2 ==> LastUse(stream, x) < LastUse(stream, y))
  {
    RunSucceeds(c, stream);
    var s := Run(c, stream).value.0;
    ConcatInOrder(stream, s.b1, s.t1);
    ConcatInOrder(stream, s.b2, s.t2);
  }

  lemma ConcatInOrder(h: seq<Key>, a: seq<Key>, b: seq<Key>)
    requires ByRecency(h, a + b)
    ensures ByRecency(h, a) && ByRecency(h, b)
    ensures forall x, y :: x in a && y in b ==> LastUse(h, x) < LastUse(h, y)
  {
    assert forall i :: 0 <= i < |a| ==> (a + b)[i] == a[i];
    assert forall i :: 0 <= i < |b| ==> (a + b)[|a| + i] == b[i];
    forall x, y | x in a && y in b
      ensures LastUse(h, x) < LastUse(h, y)
    {
      var i, j := IndexOf(a, x), IndexOf(b, y);
      assert (a + b)[i] == x && (a + b)[|a| + j] == y;
    }
  }

  lemma {:induction false} DirectorySeen(c: nat, stream: seq<Key>)
    requires c >= 1
    ensures Run(c, stream).Some?
    ensures forall x :: x in Directory(Run(c, stream).value.0) ==> x in stream
  {
    RunSucceeds(c, stream);
    var s := Run(c, stream).value.0;
    forall x | x in Directory(s)
      ensures x in stream
    {
      InDirectory(s, x);
    }
  }

  /** The outcome of the reference at position i. */
  function OutcomeAt(c: nat, stream: seq<Key>, i: nat): Outcome
    requires i < |stream| && Run(c, stream).Some?
  {
    Run(c, stream).value.1[i]
  }

  lemma RunLast(c: nat, stream: seq<Key>) returns (s: State, outs: seq<Outcome>, r: State, o: Outcome)
    requires stream != [] && Run(c, stream).Some?
    ensures Run(c, stream[..|stream| - 1]) == Some((s, outs))
    ensures Access(s, stream[|stream| - 1]) == Some((r, o))
    ensures Run(c, stream) == Some((r, outs + [o]))
  {
    var before := Run(c, stream[..|stream| - 1]).value;
    s, outs := before.0, before.1;
    var after := Access(s, stream[|stream| - 1]).value;
    r, o := after.0, after.1;
  }

  lemma {:induction false} RunPrefix(c: nat, stream: seq<Key>, i: nat) returns (s: State, r: State)
    requires i < |stream| && Run(c, stream).Some?
    ensures Run(c, stream[..i]).Some? && Run(c, stream[..i]).value.0 == s
    ensures Access(s, stream[i]) == Some((r, OutcomeAt(c, stream, i)))
  {
    var t, outs, t', o := RunLast(c, stream);
    var h := stream[..|stream| - 1];
    if i == |h| {
      s, r := t, t';
    } else {
      s, r := RunPrefix(c, h, i);
      assert h[..i] == stream[..i];
    }
  }

  /** A first reference always misses; a later one misses only if c other keys were referenced in between. */
  lemma MissMeansForgotten(c: nat, stream: seq<Key>, i: nat)
    requires c >= 1 && i < |stream|
    ensures Run(c, stream).Some?
    ensures stream[i] !in stream[..i] ==> OutcomeAt(c, stream, i) == Miss
    ensures stream[i] in stream[..i] && OutcomeAt(c, stream, i) == Miss ==> |MoreRecent(stream[..i], stream[i])| >= c
  {
    RunSucceeds(c, stream);
    var s, r := RunPrefix(c, stream, i);
    RunSucceeds(c, stream[..i]);
    DirectorySeen(c, stream[..i]);
    AccessTracks(s, stream[..i], stream[i]);
  }

  // ----- the target until the first ghost hit -----

  ghost predicate NoGhostHit(outs: seq<Outcome>) {
    forall j :: 0 <= j < |outs| ==> outs[j] == Hit || outs[j] == Miss
  }

  /** The target starts at 0 and stays there as long as no reference finds its key in a ghost list. */
  lemma {:induction false} TargetUntilGhost(c: nat, stream: seq<Key>)
    requires c >= 1
    ensures Run(c, stream).Some?
    ensures NoGhostHit(Run(c, stream).value.1) ==> Run(c, stream).value.0.p == 0.0
  {
    RunSucceeds(c, stream);
    if stream != [] {
      var s, outs, r, o := RunLast(c, stream);
      TargetUntilGhost(c, stream[..|stream| - 1]);
      GhostHitsAdapt(s, stream[|stream| - 1]);
      assert (outs + [o])[|outs|] == o;
      assert forall j :: 0 <= j < |outs| ==> (outs + [o])[j] == outs[j];
    }
  }

  /** Until the first ghost hit a page referenced twice is never evicted while T1 still holds a page. */
  lemma FrequentStays(c: nat, stream: seq<Key>, y: Key)
    requires c >= 1 && stream != []
    ensures Run(c, stream).Some? && Run(c, stream[..|stream| - 1]).Some?
    ensures var s, r := Run(c, stream[..|stream| - 1]).value.0, Run(c, stream).value.0;
      NoGhostHit(Run(c, stream).value.1) && s.t1 != [] && y in s.t2 ==> y in r.t1 || y in r.t2
  {
    RunSucceeds(c, stream);
    RunSucceeds(c, stream[..|stream| - 1]);
    TargetUntilGhost(c, stream);
    var s, outs, r, o := RunLast(c, stream);
    VictimByTarget(s, stream[|stream| - 1], y);
    assert (outs + [o])[|outs|] == o;
  }

  // ----- the reference policy: plain LRU -----

  function LruAccess(c: nat, l: seq<Key>, x: Key): seq<Key>
    requires c >= 1
  {
    var kept := Remove(l, x);
    (if |kept| >= c then kept[1..] else kept) + [x]
  }

  function LruRun(c: nat, stream: seq<Key>): seq<Key>
    requires c >= 1
  {
    if stream == [] then []
    else LruAccess(c, LruRun(c, stream[..|stream| - 1]), stream[|stream| - 1])
  }

  predicate LruHit(c: nat, stream: seq<Key>, i: nat)
    requires c >= 1 && i < |stream|
  {
    stream[i] in LruRun(c, stream[..i])
  }

  /** LRU holds the most recent keys: what it has dropped is older than everything it holds, and it is full. */
  ghost predicate LruInv(c: nat, h: seq<Key>, l: seq<Key>) {
    && ByRecency(h, l)
    && |l| <= c
    && forall y :: y in h && y !in l ==> |l| == c && forall z :: z in l ==> LastUse(h, y) < LastUse(h, z)
  }

  lemma LruAccessKeeps(c: nat, h: seq<Key>, l: seq<Key>, x: Key)
    requires c >= 1 && LruInv(c, h, l)
    ensures LruInv(c, h + [x], LruAccess(c, l, x))
  {
    var kept := Remove(l, x);
    RemoveKeepsOrder(h, l, x);
    RemoveFacts(l, x);
    KeepOrder(h, kept, x);
    var r := LruAccess(c, l, x);
    if |kept| >= c {
      DropOldest(h, kept, x);
    }
    forall y | y in h + [x] && y !in r
      ensures |r| == c && forall z :: z in r ==> LastUse(h + [x], y) < LastUse(h + [x], z)
    {
      assert r[|r| - 1] == x;
      LruDropped(c, h, l, x, y);
    }
  }

  lemma LruDropped(c: nat, h: seq<Key>, l: seq<Key>, x: Key, y: Key)
    requires c >= 1 && LruInv(c, h, l)
    requires y in h && y != x && y !in LruAccess(c, l, x)
    ensures var r := LruAccess(c, l, x);
      |r| == c && forall z :: z in r ==> LastUse(h + [x], y) < LastUse(h + [x], z)
  {
    var kept := Remove(l, x);
    RemoveKeepsOrder(h, l, x);
    RemoveFacts(l, x);
    var r := LruAccess(c, l, x);
    forall z | z in r
      ensures LastUse(h + [x], y) < LastUse(h + [x], z)
    {
      LastUseAfter(h, x, y);
      LastUseAfter(h, x, z);
      if z != x {
        assert z in kept;
        if y in kept {
          assert y == kept[0];
          var j :| 0 <= j < |kept| && kept[j] == z;
        }
      }
    }
  }

  lemma {:induction false} LruKeeps(c: nat, stream: seq<Key>)
    requires c >= 1
    ensures LruInv(c, stream, LruRun(c, stream))
  {
    if stream != [] {
      var h, x := stream[..|stream| - 1], stream[|stream| - 1];
      LruKeeps(c, h);
      LruAccessKeeps(c, h, LruRun(c, h), x);
      assert stream == h + [x];
    }
  }

  /** LRU hits exactly the keys with fewer than c distinct keys referenced since their own last reference. */
  lemma LruHolds(c: nat, h: seq<Key>, x: Key)
    requires c >= 1 && x in h
    ensures x in LruRun(c, h) <==> |MoreRecent(h, x)| < c
  {
    LruKeeps(c, h);
    var l := LruRun(c, h);
    RemoveKeepsOrder(h, l, x);
    NoDupCardinality(l);
    if x in l {
      assert MoreRecent(h, x) <= Elements(l) - {x};
      SubsetCardinality(MoreRecent(h, x), Elements(l) - {x});
    } else {
      assert Elements(l) <= MoreRecent(h, x);
      SubsetCardinality(Elements(l), MoreRecent(h, x));
    }
  }

  /** Every reference that a plain LRU of the same capacity hits is a hit or a ghost hit here. */
  lemma LruHitIsNoMiss(c: nat, stream: seq<Key>, i: nat)
    requires c >= 1 && i < |stream| && LruHit(c, stream, i)
    ensures Run(c, stream).Some? && OutcomeAt(c, stream, i) != Miss
  {
    LruKeeps(c, stream[..i]);
    LruHolds(c, stream[..i], stream[i]);
    MissMeansForgotten(c, stream, i);
  }

  // ----- counters over a whole stream -----

  /** ArcCounters without its constant capacity field. */
  datatype Counters = Counters(accesses: nat, hits: nat, misses: nat, b1GhostHits: nat, b2GhostHits: nat) {
    function GhostHits(): nat {
      b1GhostHits + b2GhostHits
    }

    /** The counters after one more reference. */
    function Bump(o: Outcome): Counters {
      var k := this.(accesses := accesses + 1);
      match o
      case Hit => k.(hits := hits + 1)
      case GhostB1 => k.(b1GhostHits := b1GhostHits + 1)
      case GhostB2 => k.(b2GhostHits := b2GhostHits + 1)
      case Miss => k.(misses := misses + 1)
    }
  }

  function Count(outs: seq<Outcome>, o: Outcome): nat {
    if outs == [] then 0
    else Count(outs[..|outs| - 1], o) + if outs[|outs| - 1] == o then 1 else 0
  }

  function Tally(outs: seq<Outcome>): (r: Counters)
  {
    Counters(|outs|, Count(outs, Hit), Count(outs, Miss), Count(outs, GhostB1), Count(outs, GhostB2))
  }

  function At(outs: seq<Outcome>, o: Outcome): set<nat> {
    set i: nat | i < |outs| && outs[i] == o
  }

  lemma {:induction false} CountIsPositions(outs: seq<Outcome>, o: Outcome)
    ensures Count(outs, o) == |At(outs, o)|
  {
    if outs != [] {
      var n := |outs| - 1;
      CountIsPositions(outs[..n], o);
      assert At(outs, o) == At(outs[..n], o) + if outs[n] == o then {n} else {};
    }
  }

  /** Every counter is the number of references with its own outcome. */
  lemma TallyCounts(outs: seq<Outcome>)
    ensures var k := Tally(outs);
      && k.accesses == |outs| && k.hits == |At(outs, Hit)| && k.misses == |At(outs, Miss)|
      && k.b1GhostHits == |At(outs, GhostB1)| && k.b2GhostHits == |At(outs, GhostB2)|
      && k.GhostHits() == |At(outs, GhostB1)| + |At(outs, GhostB2)|
  {
    CountIsPositions(outs, Hit);
    CountIsPositions(outs, Miss);
    CountIsPositions(outs, GhostB1);
    CountIsPositions(outs, GhostB2);
  }

  lemma {:induction false} CountsPartition(outs: seq<Outcome>)
    ensures Count(outs, Hit) + Count(outs, Miss) + Count(outs, GhostB1) + Count(outs, GhostB2) == |outs|
  {
    if outs != [] {
      CountsPartition(outs[..|outs| - 1]);
    }
  }

  function LruHits(c: nat, stream: seq<Key>): nat
    requires c >= 1
  {
    if stream == [] then 0
    else
      LruHits(c, stream[..|stream| - 1]) + if LruHit(c, stream, |stream| - 1) then 1 else 0
  }

  lemma RunStep(c: nat, stream: seq<Key>)
    requires c >= 1 && stream != []
    ensures Run(c, stream).Some? && Run(c, stream[..|stream| - 1]).Some?
    ensures var n := |stream| - 1;
      Run(c, stream).value.1 == Run(c, stream[..n]).value.1 + [OutcomeAt(c, stream, n)]
  {
    RunSucceeds(c, stream);
    RunSucceeds(c, stream[..|stream| - 1]);
  }

  /** Over any stream: at least as many hits and ghost hits as a plain LRU has hits. */
  lemma {:induction false} AtLeastLru(c: nat, stream: seq<Key>)
    requires c >= 1
    ensures Run(c, stream).Some?
    ensures var k := Tally(Run(c, stream).value.1);
      k.hits + k.GhostHits() >= LruHits(c, stream)
  {
    RunSucceeds(c, stream);
    if stream != [] {
      var n := |stream| - 1;
      AtLeastLru(c, stream[..n]);
      RunStep(c, stream);
      if LruHit(c, stream, n) {
        LruHitIsNoMiss(c, stream, n);
      }
    }
  }

  lemma ElementsExtend<T>(s: seq<T>)
    requires s != []
    ensures var n := |s| - 1;
      |Elements(s)| == |Elements(s[..n])| + if s[n] in s[..n] then 0 else 1
  {
    var n := |s| - 1;
    assert s == s[..n] + [s[n]];
    assert Elements(s) == Elements(s[..n]) + {s[n]};
  }

  /** Every distinct key misses at least once, so hits and ghost hits are bounded by the re-references. */
  lemma {:induction false} MissesCoverKeys(c: nat, stream: seq<Key>)
    requires c >= 1
    ensures Run(c, stream).Some?
    ensures var k := Tally(Run(c, stream).value.1);
      && k.misses >= |Elements(stream)|
      && k.hits + k.GhostHits() + |Elements(stream)| <= |stream|
  {
    if stream == [] {
    } else {
      var n := |stream| - 1;
      MissesCoverKeys(c, stream[..n]);
      RunStep(c, stream);
      MissMeansForgotten(c, stream, n);
      ElementsExtend(stream);
      CountsPartition(Run(c, stream).value.1);
    }
  }

  /** The cache object: fields in place of the state value, counters kept as references are processed. */
  class PlainARC {
    const c: nat
    var p: real
    var t1: seq<Key>
    var t2: seq<Key>
    var b1: seq<Key>
    var b2: seq<Key>
    var counters: Counters

    function Value(): State
      reads this
    {
      State(c, p, t1, t2, b1, b2)
    }

    ghost predicate Valid()
      reads this
    {
      Inv(Value()) && counters.accesses == counters.hits + counters.misses + counters.GhostHits()
    }

    constructor (capacity: nat)
      requires capacity >= 1
      ensures Valid() && Value() == Empty(capacity) && counters == Tally([])
    {
      c := capacity;
      p := 0.0;
      t1, t2, b1, b2 := [], [], [], [];
      counters := Counters(0, 0, 0, 0, 0);
    }

    /** _replace; callers leave a page to evict, so neither popitem can fail. */
    method ReplaceVictim(inB2: bool)
      requires Replace(Value(), inB2).Some?
      modifies this
      ensures Value() == Replace(old(Value()), inB2).value
      ensures counters == old(counters)
    {
      if t1 != [] && (|t1| as real > p || (inB2 && |t1| as real == p)) {
        var lru := t1[0];
        t1 := t1[1..];
        b1 := Put(b1, lru);
      } else {
        var lru := t2[0];
        t2 := t2[1..];
        b2 := Put(b2, lru);
      }
    }

    /** The evictions of the miss branch. */
    method EvictForMiss()
      requires MakeRoom(Value()).Some?
      modifies this
      ensures Value() == MakeRoom(old(Value())).value
      ensures counters == old(counters)
    {
      var l1 := |t1| + |b1|;
      if l1 == c {
        if |t1| < c {
          b1 := b1[1..];
          ReplaceVictim(false);
        } else {
          t1 := t1[1..];
        }
      } else {
        var total := l1 + |t2| + |b2|;
        if total >= c {
          if total == 2 * c {
            b2 := b2[1..];
          }
          ReplaceVictim(false);
        }
      }
    }

    method Touch(x: Key)
      requires x in t1 || x in t2
      modifies this
      ensures Access(old(Value()), x) == Some((Value(), Hit))
      ensures counters == old(counters).(hits := old(counters).hits + 1)
    {
      t1 := Remove(t1, x);
      t2 := Remove(t2, x);
      t2 := Put(t2, x);
      counters := counters.(hits := counters.hits + 1);
    }

    method RecallFromB1(x: Key)
      requires x in b1 && x !in t1 && x !in t2 && Access(Value(), x).Some?
      modifies this
      ensures Access(old(Value()), x) == Some((Value(), GhostB1))
      ensures counters == old(counters).(b1GhostHits := old(counters).b1GhostHits + 1)
    {
      p := MinReal(c as real, p + MaxReal(1.0, |b2| as real / |b1| as real));
      ReplaceVictim(false);
      b1 := Remove(b1, x);
      t2 := Put(t2, x);
      counters := counters.(b1GhostHits := counters.b1GhostHits + 1);
    }

    method RecallFromB2(x: Key)
      requires x in b2 && x !in b1 && x !in t1 && x !in t2 && Access(Value(), x).Some?
      modifies this
      ensures Access(old(Value()), x) == Some((Value(), GhostB2))
      ensures counters == old(counters).(b2GhostHits := old(counters).b2GhostHits + 1)
    {
      p := MaxReal(0.0, p - MaxReal(1.0, |b1| as real / |b2| as real));
      ReplaceVictim(true);
      b2 := Remove(b2, x);
      t2 := Put(t2, x);
      counters := counters.(b2GhostHits := counters.b2GhostHits + 1);
    }

    method Admit(x: Key)
      requires x !in t1 && x !in t2 && x !in b1 && x !in b2 && Access(Value(), x).Some?
      modifies this
      ensures Access(old(Value()), x) == Some((Value(), Miss))
      ensures counters == old(counters).(misses := old(counters).misses + 1)
    {
      counters := counters.(misses := counters.misses + 1);
      EvictForMiss();
      t1 := Put(t1, x);
    }

    /** The five branches of access, on any state on which no popitem fails. */
    method Dispatch(x: Key) returns (o: Outcome)
      requires Access(Value(), x).Some?
      modifies this
      ensures Access(old(Value()), x) == Some((Value(), o))
      ensures counters == old(counters).Bump(o)
    {
      counters := counters.(accesses := counters.accesses + 1);
      if x in t1 || x in t2 {
        Touch(x);
        o := Hit;
      } else if x in b1 {
        RecallFromB1(x);
        o := GhostB1;
      } else if x in b2 {
        RecallFromB2(x);
        o := GhostB2;
      } else {
        Admit(x);
        o := Miss;
      }
    }

    method Reference(x: Key) returns (o: Outcome)
      requires Valid()
      modifies this
      ensures Valid()
      ensures Access(old(Value()), x) == Some((Value(), o))
      ensures counters == old(counters).Bump(o)
    {
      AccessKeepsInv(Value(), x);
      o := Dispatch(x);
    }
  }

  lemma AccessKeepsInv(s: State, x: Key)
    requires Inv(s)
    ensures Access(s, x).Some? && Inv(Access(s, x).value.0)
  {
    if x in s.t1 || x in s.t2 {
      TouchKeepsInv(s, x);
    } else if x in s.b1 {
      GhostB1KeepsInv(s, x);
    } else if x in s.b2 {
      GhostB2KeepsInv(s, x);
    } else {
      MissKeepsInv(s, x);
    }
  }
}
