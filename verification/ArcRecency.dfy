/** What the ARC directory keeps: recency order on each side, and every key a plain LRU would still hold. */
module ArcRecency {
  import opened Collections
  import opened Arc

  /** The position of the last reference to x in the history, or -1. */
  function LastUse(h: seq<Key>, x: Key): (r: int)
    ensures -1 <= r < |h|
    ensures r >= 0 ==> h[r] == x
    ensures r == -1 <==> x !in h
  {
    if h == [] then -1
    else if h[|h| - 1] == x then |h| - 1
    else LastUse(h[..|h| - 1], x)
  }

  lemma LastUseAfter(h: seq<Key>, x: Key, y: Key)
    ensures LastUse(h + [x], y) == if y == x then |h| else LastUse(h, y)
  {
    assert (h + [x])[..|h|] == h;
  }

  /** Every key of s occurs in the history, and s lists its keys from the least to the most recently used. */
  ghost predicate ByRecency(h: seq<Key>, s: seq<Key>) {
    && (forall x :: x in s ==> x in h)
    && (forall i, j :: 0 <= i < j < |s| ==> LastUse(h, s[i]) < LastUse(h, s[j]))
  }

  /** The distinct keys referenced since the last reference to x. */
  ghost function MoreRecent(h: seq<Key>, x: Key): set<Key> {
    set y | y in h && LastUse(h, y) > LastUse(h, x)
  }

  /** Both sides are in recency order, and c distinct keys were used since any forgotten key was. */
  ghost predicate Tracks(s: State, h: seq<Key>) {
    && ByRecency(h, Recent(s))
    && ByRecency(h, Frequent(s))
    && forall x :: x in h && x !in Directory(s) ==> |MoreRecent(h, x)| >= s.c
  }

  lemma KeepOrder(h: seq<Key>, s: seq<Key>, x: Key)
    requires ByRecency(h, s) && x !in s
    ensures ByRecency(h + [x], s)
    ensures ByRecency(h + [x], s + [x])
  {
    forall y {
      LastUseAfter(h, x, y);
    }
  }

  lemma RemoveKeepsOrder(h: seq<Key>, s: seq<Key>, x: Key)
    requires ByRecency(h, s)
    ensures NoDup(s)
    ensures ByRecency(h, Remove(s, x))
  {
  }

  lemma StillOlder(h: seq<Key>, x: Key, y: Key)
    requires y in h && y != x
    ensures |MoreRecent(h, y)| <= |MoreRecent(h + [x], y)|
  {
    forall z {
      LastUseAfter(h, x, z);
    }
    SubsetCardinality(MoreRecent(h, y), MoreRecent(h + [x], y));
  }

  /** The oldest key of an ordered list: the rest of the list and the new key are all more recent. */
  lemma OldestOf(h: seq<Key>, s: seq<Key>, x: Key)
    requires ByRecency(h, s) && s != [] && x !in s
    ensures |MoreRecent(h + [x], s[0])| >= |s|
  {
    KeepOrder(h, s, x);
    var rest := s[1..] + [x];
    forall y | y in rest
      ensures y in MoreRecent(h + [x], s[0])
    {
      var i :| 0 <= i < |rest| && rest[i] == y;
      assert (s + [x])[i + 1] == y && (s + [x])[0] == s[0];
    }
    assert NoDup(rest) by {
      assert forall i :: 0 <= i < |rest| ==> rest[i] == (s + [x])[i + 1];
    }
    NoDupCardinality(rest);
    SubsetCardinality(Elements(rest), MoreRecent(h + [x], s[0]));
  }

  /** A reference that is not a miss moves one key to the MRU end of the frequent side. */
  lemma PromotionTracks(s: State, h: seq<Key>, x: Key, r: State)
    requires Tracks(s, h) && r.c == s.c
    requires x in Directory(s)
    requires Recent(r) == Remove(Recent(s), x)
    requires Frequent(r) == Remove(Frequent(s), x) + [x]
    ensures Tracks(r, h + [x])
  {
    RemoveKeepsOrder(h, Recent(s), x);
    RemoveKeepsOrder(h, Frequent(s), x);
    RemoveFacts(Recent(s), x);
    RemoveFacts(Frequent(s), x);
    KeepOrder(h, Remove(Recent(s), x), x);
    KeepOrder(h, Remove(Frequent(s), x), x);
    forall y | y in h + [x] && y !in Directory(r)
      ensures |MoreRecent(h + [x], y)| >= r.c
    {
      assert x in Frequent(r);
      assert y != x;
      assert y !in Recent(r) && y !in Frequent(r);
      assert y !in Recent(s) && y !in Frequent(s);
      StillOlder(h, x, y);
    }
  }

  lemma InDirectory(s: State, x: Key)
    ensures x in Directory(s) <==> x in Recent(s) || x in Frequent(s)
  {
  }

  lemma DropOldest(h: seq<Key>, s: seq<Key>, x: Key)
    requires ByRecency(h, s) && s != [] && x !in s
    ensures ByRecency(h + [x], s[1..])
    ensures ByRecency(h + [x], s[1..] + [x])
    ensures forall y :: y in s && y !in s[1..] ==> y == s[0]
  {
    assert ByRecency(h, s[1..]);
    KeepOrder(h, s[1..], x);
  }

  lemma MissTracks(s: State, h: seq<Key>, x: Key, r: State)
    requires Inv(s) && Tracks(s, h) && r.c == s.c
    requires x !in Directory(s)
    requires SizeOf(s) == 2 * s.c && |Recent(s)| < s.c ==> Frequent(s) != []
    requires Recent(r) == (if |Recent(s)| == s.c then Recent(s)[1..] else Recent(s)) + [x]
    requires Frequent(r) == if |Recent(s)| < s.c && SizeOf(s) == 2 * s.c then Frequent(s)[1..] else Frequent(s)
    ensures Tracks(r, h + [x])
  {
    InDirectory(s, x);
    KeepOrder(h, Recent(s), x);
    KeepOrder(h, Frequent(s), x);
    assert |Recent(s)| + |Frequent(s)| == SizeOf(s);
    if |Recent(s)| == s.c {
      DropOldest(h, Recent(s), x);
    } else if SizeOf(s) == 2 * s.c {
      DropOldest(h, Frequent(s), x);
    }
    forall y | y in h + [x] && y !in Directory(r)
      ensures |MoreRecent(h + [x], y)| >= r.c
    {
      InDirectory(r, y);
      MissForgets(s, h, x, r, y);
    }
  }

  lemma MissForgets(s: State, h: seq<Key>, x: Key, r: State, y: Key)
    requires Sized(s) && Tracks(s, h) && r.c == s.c
    requires x !in Recent(s) && x !in Frequent(s)
    requires SizeOf(s) == 2 * s.c && |Recent(s)| < s.c ==> Frequent(s) != []
    requires Recent(r) == (if |Recent(s)| == s.c then Recent(s)[1..] else Recent(s)) + [x]
    requires Frequent(r) == if |Recent(s)| < s.c && SizeOf(s) == 2 * s.c then Frequent(s)[1..] else Frequent(s)
    requires y in h + [x] && y !in Recent(r) && y !in Frequent(r)
    ensures |MoreRecent(h + [x], y)| >= s.c
  {
    assert Recent(r)[|Recent(r)| - 1] == x;
    assert |Recent(s)| + |Frequent(s)| == SizeOf(s);
    if y in Recent(s) {
      OldestOf(h, Recent(s), x);
    } else if y in Frequent(s) {
      OldestOf(h, Frequent(s), x);
    } else {
      InDirectory(s, y);
      StillOlder(h, x, y);
    }
  }

  /** One reference never fails, keeps both invariants, and misses exactly when the directory has forgotten x. */
  lemma AccessTracks(s: State, h: seq<Key>, x: Key)
    requires Inv(s) && Tracks(s, h)
    ensures Access(s, x).Some?
    ensures var (r, o) := Access(s, x).value;
      && Inv(r) && Tracks(r, h + [x]) && r.c == s.c
      && (o == Miss <==> x !in Directory(s))
      && (o == Hit <==> x in s.t1 || x in s.t2)
      && (o == GhostB1 <==> x in s.b1) && (o == GhostB2 <==> x in s.b2)
  {
    if x in s.t1 || x in s.t2 {
      TouchKeepsInv(s, x);
      PromotionTracks(s, h, x, Access(s, x).value.0);
    } else if x in s.b1 {
      GhostB1KeepsInv(s, x);
      PromotionTracks(s, h, x, Access(s, x).value.0);
    } else if x in s.b2 {
      GhostB2KeepsInv(s, x);
      PromotionTracks(s, h, x, Access(s, x).value.0);
    } else {
      MissKeepsInv(s, x);
      MissTracks(s, h, x, Access(s, x).value.0);
    }
  }
}
