/** Largest-remainder apportionment of a document's tokens to its chunks (src/karc/bench/e5_chunk_canary.py). */
module Allocation {
  import opened Collections

  /** The exact share of chunk i is spare * sizes[i] / weight; these are its floor and the numerator of its fraction. */
  function Floors(spare: nat, weight: nat, sizes: seq<nat>): (r: seq<nat>)
    requires weight > 0
    ensures |r| == |sizes| && forall i :: 0 <= i < |r| ==> r[i] == spare * sizes[i] / weight
  {
    seq(|sizes|, i requires 0 <= i < |sizes| => spare * sizes[i] / weight)
  }

  function Fractions(spare: nat, weight: nat, sizes: seq<nat>): (r: seq<nat>)
    requires weight > 0
    ensures |r| == |sizes| && forall i :: 0 <= i < |r| ==> r[i] == spare * sizes[i] % weight
  {
    seq(|sizes|, i requires 0 <= i < |sizes| => spare * sizes[i] % weight)
  }

  lemma {:induction false} FloorsAndFractions(spare: nat, weight: nat, sizes: seq<nat>)
    requires weight > 0
    ensures weight * Sum(Floors(spare, weight, sizes)) + Sum(Fractions(spare, weight, sizes)) == spare * Sum(sizes)
  {
    if sizes != [] {
      var n := |sizes| - 1;
      FloorsAndFractions(spare, weight, sizes[..n]);
      assert Floors(spare, weight, sizes)[..n] == Floors(spare, weight, sizes[..n]);
      assert Fractions(spare, weight, sizes)[..n] == Fractions(spare, weight, sizes[..n]);
      Distribute(spare, weight, Sum(Floors(spare, weight, sizes[..n])), Sum(sizes[..n]), sizes[n]);
    }
  }

  lemma Distribute(spare: nat, weight: nat, floors: nat, sizes: nat, size: nat)
    requires weight > 0
    ensures weight * (floors + spare * size / weight) + spare * size % weight == weight * floors + spare * size
    ensures spare * (sizes + size) == spare * sizes + spare * size
  {
    var x := spare * size;
    assert weight * (x / weight) + x % weight == x;
  }

  // ----- the order of the increments -----

  /** The sort key: larger fraction first, then smaller index. */
  predicate Before(fractions: seq<nat>, i: nat, j: nat)
    requires i < |fractions| && j < |fractions|
  {
    fractions[i] > fractions[j] || (fractions[i] == fractions[j] && i < j)
  }

  ghost predicate SortedIndices(fractions: seq<nat>, order: seq<nat>) {
    && NoDup(order)
    && (forall k :: 0 <= k < |order| ==> order[k] < |fractions|)
    && forall j, k :: 0 <= j < k < |order| ==> Before(fractions, order[j], order[k])
  }

  /** sorted(range(n), key=...) by insertion. */
  method SortIndices(fractions: seq<nat>) returns (order: seq<nat>)
    ensures SortedIndices(fractions, order)
    ensures |order| == |fractions| && forall i: nat :: i < |fractions| ==> i in order
  {
    order := [];
    for i := 0 to |fractions|
      invariant SortedIndices(fractions, order)
      invariant |order| == i && forall j: nat :: j in order <==> j < i
    {
      var at := 0;
      while at < |order| && Before(fractions, order[at], i)
        invariant at <= |order|
        invariant forall k :: 0 <= k < at ==> Before(fractions, order[k], i)
      {
        at := at + 1;
      }
      InsertSorted(fractions, order, i, at);
      order := order[..at] + [i] + order[at..];
    }
  }

  lemma InsertSorted(fractions: seq<nat>, order: seq<nat>, i: nat, at: nat)
    requires SortedIndices(fractions, order) && i < |fractions| && at <= |order| && i !in order
    requires forall k :: 0 <= k < at ==> Before(fractions, order[k], i)
    requires at < |order| ==> !Before(fractions, order[at], i)
    ensures SortedIndices(fractions, order[..at] + [i] + order[at..])
    ensures forall j :: j in order[..at] + [i] + order[at..] <==> j in order || j == i
  {
    var more := order[..at] + [i] + order[at..];
    assert forall k :: 0 <= k < |more| ==> more[k] == if k < at then order[k] else if k == at then i else order[k - 1];
    forall j | j in order
      ensures j in more
    {
      var k := IndexOf(order, j);
      assert more[if k < at then k else k + 1] == j;
    }
    forall k | at <= k < |order|
      ensures Before(fractions, i, order[k])
    {
      if k > at {
        assert Before(fractions, order[at], order[k]);
      }
    }
  }

  // ----- how many increments there are -----

  /** Fractions below the weight that vanish outside a set of positions sum to less than the weight per position. */
  lemma {:induction false} SumBound(fractions: seq<nat>, positive: set<nat>, weight: nat)
    requires weight > 0 && forall i :: 0 <= i < |fractions| ==> fractions[i] < weight
    requires forall i :: 0 <= i < |fractions| && i !in positive ==> fractions[i] == 0
    ensures Sum(fractions) <= |positive| * (weight - 1)
  {
    if fractions != [] {
      var n := |fractions| - 1;
      SumBound(fractions[..n], positive - {n}, weight);
      if n in positive {
        assert |positive - {n}| == |positive| - 1;
        OneMore(|positive|, weight - 1);
      } else {
        assert positive - {n} == positive;
      }
    }
  }

  /** With a positive total size, every increment goes to a chunk whose exact share is not whole. */
  lemma IncrementsAreFractional(fractions: seq<nat>, weight: nat, left: nat, order: seq<nat>, k: nat)
    requires weight > 0 && forall i :: 0 <= i < |fractions| ==> fractions[i] < weight
    requires Sum(fractions) == weight * left
    requires SortedIndices(fractions, order) && |order| == |fractions|
    requires forall i: nat :: i < |fractions| ==> i in order
    requires k < left && k < |order|
    ensures fractions[order[k]] > 0
  {
    if fractions[order[k]] == 0 {
      var positive := Elements(order[..k]);
      forall at | 0 <= at < k
        ensures order[at] in positive
      {
        assert order[..k][at] == order[at];
      }
      forall i: nat | i < |fractions| && i !in positive
        ensures fractions[i] == 0
      {
        var at := IndexOf(order, i);
        if at > k {
          assert Before(fractions, order[k], order[at]);
        }
      }
      SumBound(fractions, positive, weight);
      ElementsAtMost(order[..k]);
      TooSmall(|positive|, k, weight, left);
    }
  }

  lemma OneMore(p: nat, w: nat)
    requires p > 0
    ensures p * w == (p - 1) * w + w
  {
  }

  lemma TooSmall(p: nat, k: nat, weight: nat, left: nat)
    requires p <= k < left && weight > 0
    ensures weight * left > p * (weight - 1)
  {
    Scaled(p, left - 1, weight - 1);
    assert weight * left == (left - 1) * (weight - 1) + (left - 1) + weight;
  }

  /** The increments never outnumber the chunks. */
  lemma LeftBelowCount(fractions: seq<nat>, weight: nat, left: nat, order: seq<nat>)
    requires weight > 0 && forall i :: 0 <= i < |fractions| ==> fractions[i] < weight
    requires Sum(fractions) == weight * left
    requires |order| == |fractions| && forall i: nat :: i < |fractions| ==> i in order
    ensures left <= |fractions|
  {
    SumBound(fractions, Elements(order), weight);
    ElementsAtMost(order);
    if left > |fractions| {
      TooSmall(|Elements(order)|, |fractions|, weight, left);
    }
  }

  lemma {:induction false} SumUpdate(xs: seq<nat>, i: nat, v: nat)
    requires i < |xs|
    ensures Sum(xs[i := v]) == Sum(xs) - xs[i] + v
    ensures xs[i] <= Sum(xs)
  {
    var n := |xs| - 1;
    if i < n {
      SumUpdate(xs[..n], i, v);
      assert xs[i := v][..n] == xs[..n][i := v];
    } else {
      assert xs[i := v][..n] == xs[..n];
    }
  }

  // ----- the allocation -----

  datatype Allocated = Shares(shares: seq<nat>) | ValueError | Drift

  function Weight(sizes: seq<nat>): nat {
    if Sum(sizes) == 0 then |sizes| else Sum(sizes)
  }

  /** Each share is 1 plus its floor, or one more, and what gets more comes before what does not. */
  ghost predicate RoundedUp(floors: seq<nat>, fractions: seq<nat>, shares: seq<nat>)
    requires |floors| == |fractions| == |shares|
  {
    && (forall i :: 0 <= i < |shares| ==> 1 + floors[i] <= shares[i] <= 2 + floors[i])
    && forall i, j :: 0 <= i < |shares| && 0 <= j < |shares|
                      && shares[i] == 2 + floors[i] && shares[j] == 1 + floors[j] ==>
         Before(fractions, i, j)
  }

  ghost predicate WholeExact(floors: seq<nat>, fractions: seq<nat>, shares: seq<nat>)
    requires |floors| == |fractions| == |shares|
  {
    forall i :: 0 <= i < |shares| && fractions[i] == 0 ==> shares[i] == 1 + floors[i]
  }

  /** The share of chunk i is 1 plus the floor of its quota, or one more when its fraction is among the largest. */
  ghost predicate LargestRemainder(spare: nat, weight: nat, sizes: seq<nat>, shares: seq<nat>)
    requires |sizes| == |shares| && weight > 0
  {
    RoundedUp(Floors(spare, weight, sizes), Fractions(spare, weight, sizes), shares)
  }

  /** Whole quotas are met exactly: together with LargestRemainder, each share is a floor or ceiling of its quota. */
  ghost predicate WholeQuotasExact(spare: nat, weight: nat, sizes: seq<nat>, shares: seq<nat>)
    requires |sizes| == |shares| && weight > 0
  {
    WholeExact(Floors(spare, weight, sizes), Fractions(spare, weight, sizes), shares)
  }

  /** Quotient and remainder of the quota of chunk i. */
  lemma QuotaOf(spare: nat, w: nat, sizes: seq<nat>, i: nat) returns (f: nat, r: nat)
    requires w > 0 && i < |sizes|
    ensures f == Floors(spare, w, sizes)[i] && r == Fractions(spare, w, sizes)[i]
    ensures f * w + r == spare * sizes[i] && r < w
  {
    f, r := Floors(spare, w, sizes)[i], Fractions(spare, w, sizes)[i];
  }

  lemma QuotaOrder(spare: nat, w: nat, a: nat, b: nat, fa: nat, ra: nat, fb: nat, rb: nat)
    requires a > b && ra < w && rb < w
    requires fa * w + ra == spare * a && fb * w + rb == spare * b
    ensures fa >= fb
    ensures fa == fb ==> ra > rb || (ra == 0 && rb == 0)
  {
    Scaled(b + 1, a, spare);
    assert (b + 1) * spare == spare * b + spare;
    if fa < fb {
      SmallerQuotient(fa, ra, fb, w);
    }
    if fa == fb && spare == 0 {
      assert fa * w + ra == 0;
    }
  }

  lemma SmallerQuotient(q: nat, r: nat, p: nat, w: nat)
    requires q < p && r < w
    ensures q * w + r < p * w
  {
    Scaled(q + 1, p, w);
    assert (q + 1) * w == q * w + w;
  }

  lemma Scaled(a: nat, b: nat, w: nat)
    requires a <= b
    ensures a * w <= b * w
  {
    assert b * w == a * w + (b - a) * w;
  }

  /** The quota of a larger chunk has the larger floor, or the same floor and no smaller fraction. */
  lemma QuotasOrdered(spare: nat, w: nat, sizes: seq<nat>, i: nat, j: nat)
    requires w > 0 && i < |sizes| && j < |sizes| && sizes[i] > sizes[j]
    ensures var fi, fj := Floors(spare, w, sizes)[i], Floors(spare, w, sizes)[j];
      var ri, rj := Fractions(spare, w, sizes)[i], Fractions(spare, w, sizes)[j];
      fi >= fj && (fi == fj ==> ri > rj || (ri == 0 && rj == 0))
  {
    var fi, ri := QuotaOf(spare, w, sizes, i);
    var fj, rj := QuotaOf(spare, w, sizes, j);
    QuotaOrder(spare, w, sizes[i], sizes[j], fi, ri, fj, rj);
  }

  lemma SharesOrdered(floors: seq<nat>, fractions: seq<nat>, shares: seq<nat>, i: nat, j: nat)
    requires |floors| == |fractions| == |shares| && i < |shares| && j < |shares|
    requires RoundedUp(floors, fractions, shares) && WholeExact(floors, fractions, shares)
    requires floors[i] >= floors[j]
    requires floors[i] == floors[j] ==> fractions[i] > fractions[j] || (fractions[i] == 0 && fractions[j] == 0)
    ensures shares[i] >= shares[j]
  {
    assert shares[i] == 1 + floors[i] && shares[j] == 2 + floors[j] ==> Before(fractions, j, i);
  }

  /** A strictly larger chunk never gets fewer tokens. */
  lemma Monotone(spare: nat, weight: nat, sizes: seq<nat>, shares: seq<nat>, i: nat, j: nat)
    requires |sizes| == |shares| && weight > 0
    requires LargestRemainder(spare, weight, sizes, shares) && WholeQuotasExact(spare, weight, sizes, shares)
    requires i < |sizes| && j < |sizes| && sizes[i] > sizes[j]
    ensures shares[i] >= shares[j]
  {
    QuotasOrdered(spare, weight, sizes, i, j);
    SharesOrdered(Floors(spare, weight, sizes), Fractions(spare, weight, sizes), shares, i, j);
  }

  // ----- the shares in terms of the sizes alone -----

  /** Beyond its first token a chunk gets its quota, spare * size / weight, up to less than one token. */
  predicate QuotaMet(spare: nat, weight: nat, size: nat, share: int) {
    weight * (share - 1) < spare * size + weight && spare * size < weight * (share - 1) + weight
  }

  /** The share of the first chunk is rounded up, that of the second is not. */
  predicate UpAndDown(spare: nat, weight: nat, a: nat, shareA: int, b: nat, shareB: int) {
    weight * (shareA - 1) > spare * a && weight * (shareB - 1) <= spare * b
  }

  /**
   * Every share meets its quota; a chunk that is rounded up has a larger remainder than one that is not, or the same
   * and comes earlier. Of two equal chunks the earlier one never gets fewer.
   */
  ghost predicate Apportioned(spare: nat, weight: nat, sizes: seq<nat>, shares: seq<nat>)
    requires |sizes| == |shares| && weight > 0
  {
    && (forall i :: 0 <= i < |sizes| ==> QuotaMet(spare, weight, sizes[i], shares[i]))
    && (forall i, j :: 0 <= i < |sizes| && 0 <= j < |sizes|
                       && UpAndDown(spare, weight, sizes[i], shares[i], sizes[j], shares[j]) ==>
          || spare * sizes[i] % weight > spare * sizes[j] % weight
          || (spare * sizes[i] % weight == spare * sizes[j] % weight && i < j))
    && forall i, j :: 0 <= i < j < |sizes| && sizes[i] == sizes[j] ==> shares[i] >= shares[j]
  }

  lemma QuotaIsMet(spare: nat, w: nat, size: nat, f: nat, r: nat, share: nat)
    requires w > 0 && f * w + r == spare * size && r < w
    requires share == 1 + f || (share == 2 + f && r > 0)
    ensures QuotaMet(spare, w, size, share)
    ensures w * (share - 1) > spare * size <==> share == 2 + f
  {
    assert w * f == f * w;
    if share == 2 + f {
      assert w * (share - 1) == f * w + w;
    }
  }

  lemma SharesApportioned(spare: nat, weight: nat, sizes: seq<nat>, shares: seq<nat>)
    requires |sizes| == |shares| && weight > 0
    requires LargestRemainder(spare, weight, sizes, shares) && WholeQuotasExact(spare, weight, sizes, shares)
    ensures Apportioned(spare, weight, sizes, shares)
  {
    var floors, fractions := Floors(spare, weight, sizes), Fractions(spare, weight, sizes);
    forall i | 0 <= i < |sizes|
      ensures QuotaMet(spare, weight, sizes[i], shares[i])
      ensures weight * (shares[i] - 1) > spare * sizes[i] <==> shares[i] == 2 + floors[i]
    {
      var f, r := QuotaOf(spare, weight, sizes, i);
      QuotaIsMet(spare, weight, sizes[i], f, r, shares[i]);
    }
    forall i, j | 0 <= i < |sizes| && 0 <= j < |sizes|
                  && UpAndDown(spare, weight, sizes[i], shares[i], sizes[j], shares[j])
      ensures
        || spare * sizes[i] % weight > spare * sizes[j] % weight
        || (spare * sizes[i] % weight == spare * sizes[j] % weight && i < j)
    {
      assert Before(fractions, i, j);
    }
  }

  lemma {:induction false} IncreasingFrom(order: seq<nat>, k: nat)
    requires k < |order| && forall a, b :: 0 <= a < b < |order| ==> order[a] < order[b]
    ensures order[k] >= k
  {
    if k > 0 {
      IncreasingFrom(order, k - 1);
    }
  }

  lemma {:induction false} IncreasingUpTo(order: seq<nat>, k: nat)
    requires k < |order| && forall a, b :: 0 <= a < b < |order| ==> order[a] < order[b]
    requires forall a :: 0 <= a < |order| ==> order[a] < |order|
    ensures order[k] <= k
    decreases |order| - k
  {
    if k + 1 < |order| {
      IncreasingUpTo(order, k + 1);
    }
  }

  /** With all sizes zero the chunks are incremented in order. */
  lemma InOrderOfIndex(fractions: seq<nat>, order: seq<nat>, k: nat)
    requires SortedIndices(fractions, order) && |order| == |fractions| && k < |order|
    requires forall i :: 0 <= i < |fractions| ==> fractions[i] == 0
    ensures order[k] == k
  {
    assert forall a, b :: 0 <= a < b < |order| ==> Before(fractions, order[a], order[b]);
    IncreasingFrom(order, k);
    IncreasingUpTo(order, k);
  }

  lemma FirstPositions(order: seq<nat>, spare: nat)
    requires spare <= |order| && forall k :: 0 <= k < |order| ==> order[k] == k
    ensures forall i: nat :: i in order[..spare] <==> i < spare
  {
    forall i: nat
      ensures i in order[..spare] <==> i < spare
    {
      if i < spare {
        assert order[..spare][i] == i;
      }
    }
  }

  /** All sizes are zero: the first chunks get the spare tokens, one each. */
  lemma ZeroShares(floors: seq<nat>, fractions: seq<nat>, spare: nat, order: seq<nat>, extra: seq<nat>)
    requires |floors| == |fractions| == |order| && spare <= |order|
    requires forall i :: 0 <= i < |floors| ==> floors[i] == 0 && fractions[i] == 0
    requires SortedIndices(fractions, order) && Incremented(floors, order, extra, spare)
    ensures forall i :: 0 <= i < |extra| ==> extra[i] == if i < spare then 1 else 0
  {
    forall k: nat | k < |order|
      ensures order[k] == k
    {
      InOrderOfIndex(fractions, order, k);
    }
    FirstPositions(order, spare);
  }

  /** What the loop over order[:left] has done after k increments. */
  ghost predicate Incremented(floors: seq<nat>, order: seq<nat>, extra: seq<nat>, k: nat)
    requires k <= |order|
  {
    && |extra| == |floors|
    && Sum(extra) == Sum(floors) + k
    && forall i :: 0 <= i < |floors| ==> extra[i] == floors[i] + if i in order[..k] then 1 else 0
  }

  lemma IncrementStep(floors: seq<nat>, order: seq<nat>, extra: seq<nat>, k: nat)
    requires NoDup(order) && k < |order| && order[k] < |floors| && Incremented(floors, order, extra, k)
    ensures Incremented(floors, order, extra[order[k] := extra[order[k]] + 1], k + 1)
  {
    SumUpdate(extra, order[k], extra[order[k]] + 1);
    assert order[..k + 1] == order[..k] + [order[k]];
    assert order[k] !in order[..k];
  }

  function PlusOne(xs: seq<nat>): (r: seq<nat>)
    ensures |r| == |xs| && forall i :: 0 <= i < |r| ==> r[i] == 1 + xs[i]
  {
    seq(|xs|, i requires 0 <= i < |xs| => 1 + xs[i])
  }

  lemma {:induction false} PlusOneSum(xs: seq<nat>)
    ensures Sum(PlusOne(xs)) == |xs| + Sum(xs)
  {
    if xs != [] {
      var n := |xs| - 1;
      PlusOneSum(xs[..n]);
      assert PlusOne(xs)[..n] == PlusOne(xs[..n]);
    }
  }

  lemma LeftOver(spare: nat, sizes: seq<nat>) returns (left: nat)
    requires Sum(sizes) > 0
    ensures left == spare - Sum(Floors(spare, Sum(sizes), sizes))
    ensures Sum(Fractions(spare, Sum(sizes), sizes)) == Sum(sizes) * left
  {
    var w := Sum(sizes);
    FloorsAndFractions(spare, w, sizes);
    left := LeftOverOf(spare, w, Sum(Floors(spare, w, sizes)), Sum(Fractions(spare, w, sizes)));
  }

  lemma LeftOverOf(spare: nat, w: nat, f: nat, r: nat) returns (left: nat)
    requires w > 0 && w * f + r == spare * w
    ensures left == spare - f && r == w * left
  {
    if f > spare {
      SmallerQuotient(spare, 0, f, w);
      assert false;
    }
    left := spare - f;
    assert w * left == w * spare - w * f;
  }

  lemma NothingToFloor(spare: nat, sizes: seq<nat>)
    requires sizes != [] && Sum(sizes) == 0
    ensures Sum(Floors(spare, |sizes|, sizes)) == 0
  {
    ZeroSizes(sizes);
    ZeroFloors(spare, |sizes|, sizes);
  }

  lemma {:induction false} ZeroSizes(sizes: seq<nat>)
    requires Sum(sizes) == 0
    ensures forall i :: 0 <= i < |sizes| ==> sizes[i] == 0
  {
    if sizes != [] {
      ZeroSizes(sizes[..|sizes| - 1]);
    }
  }

  lemma {:induction false} ZeroFloors(spare: nat, weight: nat, sizes: seq<nat>)
    requires weight > 0 && forall i :: 0 <= i < |sizes| ==> sizes[i] == 0
    ensures Sum(Floors(spare, weight, sizes)) == 0
  {
    if sizes != [] {
      var n := |sizes| - 1;
      ZeroFloors(spare, weight, sizes[..n]);
      assert Floors(spare, weight, sizes)[..n] == Floors(spare, weight, sizes[..n]);
    }
  }

  lemma LeftOverAny(spare: nat, sizes: seq<nat>) returns (left: nat)
    requires sizes != []
    ensures left == spare - Sum(Floors(spare, Weight(sizes), sizes))
    ensures Sum(sizes) > 0 ==> Sum(Fractions(spare, Weight(sizes), sizes)) == Weight(sizes) * left
    ensures Sum(sizes) == 0 ==> left == spare
  {
    if Sum(sizes) > 0 {
      left := LeftOver(spare, sizes);
    } else {
      NothingToFloor(spare, sizes);
      left := spare;
    }
  }

  /** One increment for each of the first left indices of the order. */
  lemma ResultRoundedUp(floors: seq<nat>, fractions: seq<nat>, order: seq<nat>, extra: seq<nat>, left: nat)
    requires |floors| == |fractions| == |order| && SortedIndices(fractions, order)
    requires forall i: nat :: i < |fractions| ==> i in order
    requires left <= |order| && Incremented(floors, order, extra, left)
    ensures RoundedUp(floors, fractions, PlusOne(extra))
  {
    var shares := PlusOne(extra);
    forall i, j | 0 <= i < |shares| && 0 <= j < |shares| && shares[i] == 2 + floors[i] && shares[j] == 1 + floors[j]
      ensures Before(fractions, i, j)
    {
      assert i in order[..left] && j !in order[..left];
      var a, b := IndexOf(order[..left], i), IndexOf(order, j);
      assert Before(fractions, order[a], order[b]);
    }
  }

  lemma ResultWholeExact(floors: seq<nat>, fractions: seq<nat>, weight: nat, order: seq<nat>, extra: seq<nat>,
                         left: nat)
    requires weight > 0 && forall i :: 0 <= i < |fractions| ==> fractions[i] < weight
    requires Sum(fractions) == weight * left
    requires |floors| == |fractions| == |order| && SortedIndices(fractions, order)
    requires forall i: nat :: i < |fractions| ==> i in order
    requires left <= |order| && Incremented(floors, order, extra, left)
    ensures WholeExact(floors, fractions, PlusOne(extra))
  {
    var shares := PlusOne(extra);
    forall i | 0 <= i < |shares| && fractions[i] == 0
      ensures shares[i] == 1 + floors[i]
    {
      if i in order[..left] {
        var a := IndexOf(order[..left], i);
        IncrementsAreFractional(fractions, weight, left, order, a);
      }
    }
  }

  /** One token each, and one more for the first chunks. */
  ghost predicate FirstServed(spare: nat, shares: seq<nat>) {
    forall i :: 0 <= i < |shares| ==> shares[i] == if i < spare then 2 else 1
  }

  /** What the shares are beyond their sum. */
  ghost predicate Fair(spare: nat, sizes: seq<nat>, shares: seq<nat>)
    requires sizes != [] && |shares| == |sizes|
  {
    && LargestRemainder(spare, Weight(sizes), sizes, shares)
    && (Sum(sizes) > 0 ==> WholeQuotasExact(spare, Sum(sizes), sizes, shares))
    && (Sum(sizes) > 0 ==> Apportioned(spare, Sum(sizes), sizes, shares))
    && (Sum(sizes) == 0 ==> FirstServed(spare, shares))
  }

  lemma PositiveIsFair(spare: nat, sizes: seq<nat>, w: nat, floors: seq<nat>, fractions: seq<nat>, order: seq<nat>,
                       extra: seq<nat>, left: nat)
    requires sizes != [] && Sum(sizes) == w > 0
    requires floors == Floors(spare, w, sizes) && fractions == Fractions(spare, w, sizes)
    requires |order| == |sizes| && left <= |order| && forall i: nat :: i < |fractions| ==> i in order
    requires SortedIndices(fractions, order) && Incremented(floors, order, extra, left) && Sum(fractions) == w * left
    ensures Fair(spare, sizes, PlusOne(extra))
  {
    ResultRoundedUp(floors, fractions, order, extra, left);
    ResultWholeExact(floors, fractions, w, order, extra, left);
    SharesApportioned(spare, w, sizes, PlusOne(extra));
  }

  lemma ZeroIsFair(spare: nat, sizes: seq<nat>, floors: seq<nat>, fractions: seq<nat>, order: seq<nat>,
                   extra: seq<nat>)
    requires sizes != [] && Sum(sizes) == 0
    requires floors == Floors(spare, |sizes|, sizes) && fractions == Fractions(spare, |sizes|, sizes)
    requires |order| == |sizes| && spare <= |order| && forall i: nat :: i < |fractions| ==> i in order
    requires SortedIndices(fractions, order) && Incremented(floors, order, extra, spare)
    ensures Fair(spare, sizes, PlusOne(extra))
  {
    ResultRoundedUp(floors, fractions, order, extra, spare);
    ZeroSizes(sizes);
    ZeroQuotas(spare, |sizes|, sizes);
    ZeroShares(floors, fractions, spare, order, extra);
  }

  lemma ZeroQuotas(spare: nat, weight: nat, sizes: seq<nat>)
    requires weight > 0 && forall i :: 0 <= i < |sizes| ==> sizes[i] == 0
    ensures forall i :: 0 <= i < |sizes| ==>
              Floors(spare, weight, sizes)[i] == 0 && Fractions(spare, weight, sizes)[i] == 0
  {
    forall i | 0 <= i < |sizes|
      ensures Floors(spare, weight, sizes)[i] == 0 && Fractions(spare, weight, sizes)[i] == 0
    {
      assert spare * sizes[i] == 0;
    }
  }

  /**
   * _allocate_tokens. The drift check fails exactly when all sizes are zero and more than two tokens per chunk are
   * to be shared out; otherwise the shares are positive, sum to the total and follow the largest remainders.
   */
  method AllocateTokens(total: nat, sizes: seq<nat>) returns (r: Allocated)
    ensures r == ValueError <==> sizes == [] || total < |sizes|
    ensures r == Drift <==> sizes != [] && Sum(sizes) == 0 && total > 2 * |sizes|
    ensures r.Shares? ==>
      && 0 < |r.shares| == |sizes| <= total
      && Sum(r.shares) == total
      && Fair(total - |sizes|, sizes, r.shares)
  {
    if sizes == [] || total < |sizes| {
      return ValueError;
    }
    var spare, weight := total - |sizes|, Weight(sizes);
    ghost var l := LeftOverAny(spare, sizes);
    var floors, fractions := Floors(spare, weight, sizes), Fractions(spare, weight, sizes);
    var extra := floors;
    var left: nat := spare - Sum(extra);
    var order := SortIndices(fractions);
    var count := if left < |order| then left else |order|;
    for k := 0 to count
      invariant Incremented(floors, order, extra, k)
    {
      IncrementStep(floors, order, extra, k);
      extra := extra[order[k] := extra[order[k]] + 1];
    }
    var result := PlusOne(extra);
    PlusOneSum(extra);
    if Sum(sizes) > 0 {
      LeftBelowCount(fractions, weight, left, order);
    }
    if Sum(result) != total {
      return Drift;
    }
    if Sum(sizes) > 0 {
      PositiveIsFair(spare, sizes, weight, floors, fractions, order, extra, left);
    } else {
      ZeroIsFair(spare, sizes, floors, fractions, order, extra);
    }
    r := Shares(result);
  }
}
