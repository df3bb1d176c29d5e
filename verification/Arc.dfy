/** The unit-size ARC cache replayed for ghost hits (src/karc/analysis/locality.py). */
module Arc {
  import opened Collections

  /** An artifact identifier. */
  datatype Key = Key(id: string)

  datatype Outcome = Hit | GhostB1 | GhostB2 | Miss

  /** The four ordered dictionaries, least recently used key first, and the target size of T1. */
  datatype State = State(c: nat, p: real, t1: seq<Key>, t2: seq<Key>, b1: seq<Key>, b2: seq<Key>)

  /** OrderedDict assignment: a present key keeps its place, a new one goes to the MRU end. */
  function Put(s: seq<Key>, x: Key): seq<Key> {
    if x in s then s else s + [x]
  }

  function MaxReal(a: real, b: real): real {
    if a < b then b else a
  }

  function MinReal(a: real, b: real): real {
    if b < a then b else a
  }

  /** None stands for the KeyError of popitem on an empty dictionary. */
  function Replace(s: State, inB2: bool): Option<State> {
    if s.t1 != [] && (|s.t1| as real > s.p || (inB2 && |s.t1| as real == s.p)) then
      Some(s.(t1 := s.t1[1..], b1 := Put(s.b1, s.t1[0])))
    else if s.t2 == [] then
      None
    else
      Some(s.(t2 := s.t2[1..], b2 := Put(s.b2, s.t2[0])))
  }

  /** Evictions that a miss makes before the new key enters T1. */
  function MakeRoom(s: State): Option<State> {
    var l1 := |s.t1| + |s.b1|;
    if l1 == s.c then
      if |s.t1| < s.c then
        if s.b1 == [] then None else Replace(s.(b1 := s.b1[1..]), false)
      else
        if s.t1 == [] then None else Some(s.(t1 := s.t1[1..]))
    else
      var total := l1 + |s.t2| + |s.b2|;
      if total >= s.c then
        if total == 2 * s.c then
          if s.b2 == [] then None else Replace(s.(b2 := s.b2[1..]), false)
        else
          Replace(s, false)
      else
        Some(s)
  }

  function GrowTarget(s: State): real
    requires s.b1 != []
  {
    MinReal(s.c as real, s.p + MaxReal(1.0, |s.b2| as real / |s.b1| as real))
  }

  function ShrinkTarget(s: State): real
    requires s.b2 != []
  {
    MaxReal(0.0, s.p - MaxReal(1.0, |s.b1| as real / |s.b2| as real))
  }

  /** One reference; None if some popitem meets an empty dictionary. */
  function Access(s: State, x: Key): Option<(State, Outcome)> {
    if x in s.t1 || x in s.t2 then
      Some((s.(t1 := Remove(s.t1, x), t2 := Put(Remove(s.t2, x), x)), Hit))
    else if x in s.b1 then
      match Replace(s.(p := GrowTarget(s)), false)
      case None => None
      case Some(r) => Some((r.(b1 := Remove(r.b1, x), t2 := Put(r.t2, x)), GhostB1))
    else if x in s.b2 then
      match Replace(s.(p := ShrinkTarget(s)), true)
      case None => None
      case Some(r) => Some((r.(b2 := Remove(r.b2, x), t2 := Put(r.t2, x)), GhostB2))
    else
      match MakeRoom(s)
      case None => None
      case Some(r) => Some((r.(t1 := Put(r.t1, x)), Miss))
  }

  function Empty(c: nat): State {
    State(c, 0.0, [], [], [], [])
  }

  // ----- sizes, disjointness and the target -----

  ghost predicate Disjoint(a: seq<Key>, b: seq<Key>) {
    forall x :: x in a ==> x !in b
  }

  ghost predicate Separate(s: State) {
    && NoDup(s.t1) && NoDup(s.t2) && NoDup(s.b1) && NoDup(s.b2)
    && Disjoint(s.t1, s.t2) && Disjoint(s.t1, s.b1) && Disjoint(s.t1, s.b2)
    && Disjoint(s.t2, s.b1) && Disjoint(s.t2, s.b2) && Disjoint(s.b1, s.b2)
  }

  ghost predicate Sized(s: State) {
    && s.c >= 1
    && |s.t1| + |s.t2| <= s.c
    && |s.t1| + |s.b1| <= s.c
    && |s.t1| + |s.t2| + |s.b1| + |s.b2| <= 2 * s.c
    && (s.b1 != [] || s.b2 != [] ==> |s.t1| + |s.t2| == s.c)
    && 0.0 <= s.p <= s.c as real
  }

  ghost predicate Inv(s: State) {
    Separate(s) && Sized(s)
  }

  ghost function Directory(s: State): set<Key> {
    Elements(s.t1) + Elements(s.t2) + Elements(s.b1) + Elements(s.b2)
  }

  /** _replace finds a victim and moves it to the ghost list of its side, which it extends at the MRU end. */
  lemma ReplaceMoves(s: State, inB2: bool)
    requires Separate(s)
    requires |s.t1| + |s.t2| >= 1
    requires s.t2 == [] ==> |s.t1| as real > s.p || (inB2 && |s.t1| as real == s.p)
    ensures var r := Replace(s, inB2);
      && r.Some? && Separate(r.value)
      && r.value.c == s.c && r.value.p == s.p
      && |r.value.t1| + |r.value.t2| == |s.t1| + |s.t2| - 1
      && r.value.b1 + r.value.t1 == s.b1 + s.t1
      && r.value.b2 + r.value.t2 == s.b2 + s.t2
      && (|r.value.t1| == |s.t1| || |r.value.t2| == |s.t2|)
      && Elements(s.b1) <= Elements(r.value.b1) && Elements(s.b2) <= Elements(r.value.b2)
      && Elements(r.value.t1) <= Elements(s.t1) && Elements(r.value.t2) <= Elements(s.t2)
      && Directory(r.value) == Directory(s)
  {
    var r := Replace(s, inB2).value;
    if r.t1 != s.t1 {
      assert s.t1 == [s.t1[0]] + r.t1;
      assert r.b1 == s.b1 + [s.t1[0]];
    } else {
      assert s.t2 == [s.t2[0]] + r.t2;
      assert r.b2 == s.b2 + [s.t2[0]];
    }
  }

  // ----- one reference keeps the invariant -----

  /** The recency side of keys seen once since they entered (ghosts first), and of keys seen again. */
  ghost function Recent(s: State): seq<Key> {
    s.b1 + s.t1
  }

  ghost function Frequent(s: State): seq<Key> {
    s.b2 + s.t2
  }

  lemma SeparateSides(s: State)
    requires Separate(s)
    ensures NoDup(Recent(s)) && NoDup(Frequent(s)) && Disjoint(Recent(s), Frequent(s))
  {
    NoDupConcat(s.b1, s.t1);
    NoDupConcat(s.b2, s.t2);
  }

  lemma TouchKeepsInv(s: State, x: Key)
    requires Inv(s) && (x in s.t1 || x in s.t2)
    ensures var r := Access(s, x);
      && r.Some? && r.value.1 == Hit && Inv(r.value.0) && r.value.0.c == s.c
      && Recent(r.value.0) == Remove(Recent(s), x)
      && Frequent(r.value.0) == Remove(Frequent(s), x) + [x]
  {
    RemoveFacts(s.t1, x);
    RemoveFacts(s.t2, x);
    SeparateSides(s);
    if x in s.t1 {
      RemoveConcatRight(s.b1, s.t1, x);
    } else {
      RemoveConcatRight(s.b2, s.t2, x);
    }
  }

  lemma TargetBounds(s: State)
    requires 0.0 <= s.p <= s.c as real && s.c >= 1
    ensures s.b1 != [] ==> 1.0 <= GrowTarget(s) <= s.c as real
    ensures s.b2 != [] ==> 0.0 <= ShrinkTarget(s) <= s.c as real - 1.0
  {
  }

  /** A key leaves the ghost list of its side and joins T2. */
  lemma PromoteKeepsSeparate(s: State, x: Key)
    requires Separate(s) && (x in s.b1 || x in s.b2)
    ensures var r := if x in s.b1 then s.(b1 := Remove(s.b1, x), t2 := Put(s.t2, x))
                                  else s.(b2 := Remove(s.b2, x), t2 := Put(s.t2, x));
      && Separate(r)
      && |r.b1| + |r.b2| == |s.b1| + |s.b2| - 1 && |r.t2| == |s.t2| + 1
      && Recent(r) == Remove(Recent(s), x)
      && Frequent(r) == Remove(Frequent(s), x) + [x]
  {
    SeparateSides(s);
    RemoveFacts(s.b1, x);
    RemoveFacts(s.b2, x);
    if x in s.b1 {
      RemoveConcatLeft(s.b1, s.t1, x);
    } else {
      RemoveConcatLeft(s.b2, s.t2, x);
    }
  }

  lemma GhostB1KeepsInv(s: State, x: Key)
    requires Inv(s) && x in s.b1
    ensures var r := Access(s, x);
      && r.Some? && r.value.1 == GhostB1 && Inv(r.value.0) && r.value.0.c == s.c
      && Recent(r.value.0) == Remove(Recent(s), x)
      && Frequent(r.value.0) == Remove(Frequent(s), x) + [x]
  {
    TargetBounds(s);
    var s1 := s.(p := GrowTarget(s));
    ReplaceMoves(s1, false);
    PromoteKeepsSeparate(Replace(s1, false).value, x);
  }

  lemma GhostB2KeepsInv(s: State, x: Key)
    requires Inv(s) && x in s.b2
    ensures var r := Access(s, x);
      && r.Some? && r.value.1 == GhostB2 && Inv(r.value.0) && r.value.0.c == s.c
      && Recent(r.value.0) == Remove(Recent(s), x)
      && Frequent(r.value.0) == Remove(Frequent(s), x) + [x]
  {
    TargetBounds(s);
    var s1 := s.(p := ShrinkTarget(s));
    ReplaceMoves(s1, true);
    PromoteKeepsSeparate(Replace(s1, true).value, x);
  }

  ghost function SizeOf(s: State): nat {
    |s.t1| + |s.t2| + |s.b1| + |s.b2|
  }

  /** A full T1 side forgets the front of B1 and moves one victim. */
  lemma DropFromB1(s: State)
    requires Inv(s) && |s.t1| + |s.b1| == s.c && |s.t1| < s.c
    ensures var r := Replace(s.(b1 := s.b1[1..]), false);
      && r.Some? && Separate(r.value) && r.value.c == s.c && r.value.p == s.p
      && Recent(r.value) == Recent(s)[1..]
      && Frequent(r.value) == Frequent(s)
      && |r.value.t1| + |r.value.t2| == s.c - 1
      && Directory(r.value) <= Directory(s)
  {
    var s1 := s.(b1 := s.b1[1..]);
    assert s.b1 == [s.b1[0]] + s1.b1;
    ReplaceMoves(s1, false);
    assert Recent(s)[1..] == Recent(s1);
  }

  /** A full directory whose T1 side is not full forgets the front of B2 and moves one victim. */
  lemma DropFromB2(s: State)
    requires Inv(s) && |s.t1| + |s.b1| < s.c && SizeOf(s) == 2 * s.c
    ensures s.b2 != []
    ensures var r := Replace(s.(b2 := s.b2[1..]), false);
      && r.Some? && Separate(r.value) && r.value.c == s.c && r.value.p == s.p
      && Recent(r.value) == Recent(s)
      && Frequent(r.value) == Frequent(s)[1..]
      && |r.value.t1| + |r.value.t2| == s.c - 1
      && Directory(r.value) <= Directory(s)
  {
    var s1 := s.(b2 := s.b2[1..]);
    assert s.b2 == [s.b2[0]] + s1.b2;
    ReplaceMoves(s1, false);
    assert Frequent(s)[1..] == Frequent(s1);
  }

  /** MakeRoom drops at most one key from the directory: the oldest of a side that is full. */
  lemma MakeRoomDrops(s: State)
    requires Inv(s)
    ensures SizeOf(s) == 2 * s.c && |Recent(s)| < s.c ==> Frequent(s) != []
    ensures var r := MakeRoom(s);
      && r.Some? && Separate(r.value) && r.value.c == s.c && r.value.p == s.p
      && Recent(r.value) == (if |Recent(s)| == s.c then Recent(s)[1..] else Recent(s))
      && Frequent(r.value) == (if |Recent(s)| < s.c && SizeOf(s) == 2 * s.c then Frequent(s)[1..] else Frequent(s))
      && |r.value.t1| + |r.value.t2| == (if SizeOf(s) >= s.c then s.c - 1 else SizeOf(s))
      && Directory(r.value) <= Directory(s)
  {
    if |s.t1| + |s.b1| == s.c {
      if |s.t1| < s.c {
        DropFromB1(s);
      }
    } else if SizeOf(s) == 2 * s.c {
      DropFromB2(s);
    } else if SizeOf(s) >= s.c {
      ReplaceMoves(s, false);
    }
  }

  lemma MissKeepsInv(s: State, x: Key)
    requires Inv(s) && x !in Directory(s)
    ensures SizeOf(s) == 2 * s.c && |Recent(s)| < s.c ==> Frequent(s) != []
    ensures var r := Access(s, x);
      && r.Some? && r.value.1 == Miss && Inv(r.value.0) && r.value.0.c == s.c
      && Recent(r.value.0) == (if |Recent(s)| == s.c then Recent(s)[1..] else Recent(s)) + [x]
      && Frequent(r.value.0) == if |Recent(s)| < s.c && SizeOf(s) == 2 * s.c then Frequent(s)[1..] else Frequent(s)
  {
    MakeRoomDrops(s);
    var m := MakeRoom(s).value;
    var r := m.(t1 := Put(m.t1, x));
    assert x !in m.t1 && x !in m.t2 && x !in m.b1 && x !in m.b2 by {
      assert x !in Directory(m);
    }
    assert |m.b1| + |m.t1| == |Recent(m)| && |m.b2| + |m.t2| == |Frequent(m)|;
  }

  lemma ReplaceKeepsTarget(s: State, inB2: bool)
    ensures Replace(s, inB2).Some? ==> Replace(s, inB2).value.p == s.p && Replace(s, inB2).value.c == s.c
  {
  }

  /** A ghost hit moves the target by at least one unit towards the side that was hit, unless it meets its bound. */
  lemma GhostHitsAdapt(s: State, x: Key)
    requires Access(s, x).Some?
    ensures var (r, o) := Access(s, x).value;
      && (o == GhostB1 ==> r.p >= MinReal(s.c as real, s.p + 1.0))
      && (o == GhostB2 ==> r.p <= MaxReal(0.0, s.p - 1.0))
      && (o == Hit || o == Miss ==> r.p == s.p)
  {
    if x in s.t1 || x in s.t2 {
    } else if x in s.b1 {
      ReplaceKeepsTarget(s.(p := GrowTarget(s)), false);
    } else if x in s.b2 {
      ReplaceKeepsTarget(s.(p := ShrinkTarget(s)), true);
    } else {
      ReplaceKeepsTarget(s, false);
    }
  }

  // ----- what one reference does to the lists -----

  /** A hit moves the key to the MRU end of T2 and changes nothing else. */
  lemma HitMoves(s: State, x: Key)
    requires Inv(s) && (x in s.t1 || x in s.t2)
    ensures Access(s, x) == Some((State(s.c, s.p, Remove(s.t1, x), Remove(s.t2, x) + [x], s.b1, s.b2), Hit))
  {
    RemoveFacts(s.t2, x);
  }

  lemma RemoveBeforeLast(b: seq<Key>, x: Key, v: Key)
    requires NoDup(b) && x in b && v !in b
    ensures Put(b, v) == b + [v] && Remove(b + [v], x) == Remove(b, x) + [v]
  {
    NoDupConcat(b, [v]);
    RemoveConcatLeft(b, [v], x);
  }

  /**
   * A B1 ghost hit raises the target by the ratio of the ghost lists, at least by 1 and at most to the capacity. The
   * victim is the oldest page of T1 if T1 exceeds the new target, and the oldest page of T2 otherwise.
   */
  lemma GhostB1Moves(s: State, x: Key)
    requires Inv(s) && x in s.b1
    ensures Access(s, x).Some? && Access(s, x).value.1 == GhostB1
    ensures var r, ratio := Access(s, x).value.0, |s.b2| as real / |s.b1| as real;
      var raised := s.p + if ratio > 1.0 then ratio else 1.0;
      && r.c == s.c && r.p == (if raised < s.c as real then raised else s.c as real)
      && (s.t1 != [] && |s.t1| as real > r.p ==>
            r.t1 == s.t1[1..] && r.t2 == s.t2 + [x] && r.b1 == Remove(s.b1, x) + [s.t1[0]] && r.b2 == s.b2)
      && (!(s.t1 != [] && |s.t1| as real > r.p) ==>
            && s.t2 != [] && r.t1 == s.t1 && r.t2 == s.t2[1..] + [x]
            && r.b1 == Remove(s.b1, x) && r.b2 == s.b2 + [s.t2[0]])
  {
    GhostB1KeepsInv(s, x);
    TargetBounds(s);
    if s.t1 != [] {
      RemoveBeforeLast(s.b1, x, s.t1[0]);
    }
  }

  /**
   * A B2 ghost hit lowers the target by the inverse ratio, at least by 1 and at most to 0. The victim is the oldest
   * page of T1 if T1 exceeds or just meets the new target, and the oldest page of T2 otherwise.
   */
  lemma GhostB2Moves(s: State, x: Key)
    requires Inv(s) && x in s.b2
    ensures Access(s, x).Some? && Access(s, x).value.1 == GhostB2
    ensures var r, ratio := Access(s, x).value.0, |s.b1| as real / |s.b2| as real;
      var lowered := s.p - if ratio > 1.0 then ratio else 1.0;
      && r.c == s.c && r.p == (if lowered > 0.0 then lowered else 0.0)
      && (s.t1 != [] && |s.t1| as real >= r.p ==>
            r.t1 == s.t1[1..] && r.t2 == s.t2 + [x] && r.b1 == s.b1 + [s.t1[0]] && r.b2 == Remove(s.b2, x))
      && (!(s.t1 != [] && |s.t1| as real >= r.p) ==>
            && s.t2 != [] && r.t1 == s.t1 && r.t2 == s.t2[1..] + [x]
            && r.b1 == s.b1 && r.b2 == Remove(s.b2, x) + [s.t2[0]])
  {
    GhostB2KeepsInv(s, x);
    TargetBounds(s);
    if s.t2 != [] {
      RemoveBeforeLast(s.b2, x, s.t2[0]);
    }
  }

  /** While there is room a miss evicts nothing, and a T1 that fills the cache drops its own oldest page for good. */
  lemma MissWithoutVictim(s: State, x: Key)
    requires Inv(s) && x !in Directory(s)
    ensures |s.t1| + |s.t2| < s.c ==> Access(s, x) == Some((s.(t1 := s.t1 + [x]), Miss))
    ensures |s.t1| == s.c ==> Access(s, x) == Some((s.(t1 := s.t1[1..] + [x]), Miss))
  {
    assert x !in s.t1;
  }

  /**
   * Any other miss forgets the oldest ghost of a full side, and its victim is the oldest page of T1 if T1 exceeds the
   * target, and the oldest page of T2 otherwise.
   */
  lemma MissMoves(s: State, x: Key)
    requires Inv(s) && x !in Directory(s) && |s.t1| + |s.t2| == s.c && |s.t1| < s.c
    ensures Access(s, x).Some? && Access(s, x).value.1 == Miss
    ensures |s.t1| + |s.b1| == s.c ==> s.b1 != []
    ensures |s.t1| + |s.b1| < s.c && |s.b1| + |s.b2| == s.c ==> s.b2 != []
    ensures var r := Access(s, x).value.0;
      var b1 := if |s.t1| + |s.b1| == s.c then s.b1[1..] else s.b1;
      var b2 := if |s.t1| + |s.b1| < s.c && |s.b1| + |s.b2| == s.c then s.b2[1..] else s.b2;
      && r.c == s.c && r.p == s.p
      && (s.t1 != [] && |s.t1| as real > s.p ==>
            r.t1 == s.t1[1..] + [x] && r.t2 == s.t2 && r.b1 == b1 + [s.t1[0]] && r.b2 == b2)
      && (!(s.t1 != [] && |s.t1| as real > s.p) ==>
            s.t2 != [] && r.t1 == s.t1 + [x] && r.t2 == s.t2[1..] && r.b1 == b1 && r.b2 == b2 + [s.t2[0]])
  {
    MissKeepsInv(s, x);
    assert x !in s.t1 && x !in s.t2;
  }

  /** A page that is in the cache before a reference and not after it. */
  ghost predicate Evicted(s: State, r: State, y: Key) {
    (y in s.t1 || y in s.t2) && y !in r.t1 && y !in r.t2
  }

  /**
   * Whatever the outcome, at most one page is evicted. It is the front of T1 if T1 fills the cache, or exceeds the
   * target after adaptation, or meets it on a B2 ghost hit; otherwise it is the front of T2.
   */
  lemma VictimByTarget(s: State, x: Key, y: Key)
    requires Inv(s) && Access(s, x).Some?
    ensures var (r, o) := Access(s, x).value;
      Evicted(s, r, y) <==>
        && o != Hit && |s.t1| + |s.t2| == s.c
        && (if && s.t1 != []
               && (|s.t1| as real > r.p || (o == GhostB2 && |s.t1| as real == r.p) || (o == Miss && |s.t1| == s.c))
            then y == s.t1[0]
            else s.t2 != [] && y == s.t2[0])
  {
    if x in s.t1 || x in s.t2 {
      HitMoves(s, x);
      RemoveFacts(s.t1, x);
      RemoveFacts(s.t2, x);
    } else if x in s.b1 {
      GhostB1Moves(s, x);
    } else if x in s.b2 {
      GhostB2Moves(s, x);
    } else if |s.t1| + |s.t2| < s.c || |s.t1| == s.c {
      MissWithoutVictim(s, x);
    } else {
      MissMoves(s, x);
    }
  }
}
