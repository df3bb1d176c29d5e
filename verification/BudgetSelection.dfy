/** Greedy selection of whole documents within a token budget (src/karc/bench/e3_retrieval.py), and the version-aware
    plans built on it (src/karc/bench/e4_retrieval.py). */
module BudgetSelection {
  import opened Collections
  import Belady
  import opened ReuseSchedule
  import opened Retrieval

  // ----- the selection as a function of the ranking -----

  /** The versions of the items with a positive score. */
  function Scored(items: seq<Item>): set<Version> {
    set i | 0 <= i < |items| && items[i].score > 0.0 :: items[i].version
  }

  lemma ScoredSnoc(items: seq<Item>, item: Item)
    ensures Scored(items + [item]) == Scored(items) + if item.score > 0.0 then {item.version} else {}
  {
    var more := items + [item];
    assert forall i :: 0 <= i < |items| ==> more[i] == items[i];
    assert more[|items|] == item;
  }

  lemma ScoredPrefix(items: seq<Item>, i: nat)
    requires i <= |items|
    ensures Scored(items[..i]) <= Scored(items)
  {
    forall v | v in Scored(items[..i])
      ensures v in Scored(items)
    {
      var j :| 0 <= j < i && items[..i][j].score > 0.0 && items[..i][j].version == v;
      assert items[j].version == v;
    }
  }

  /** The positions selected, in rank order, and the tokens used. */
  datatype Selection = Selection(picks: seq<nat>, used: nat)

  function Select(sizes: map<Version, nat>, items: seq<Item>, budget: int): Selection
    requires Scored(items) <= sizes.Keys
  {
    if items == [] then Selection([], 0)
    else
      var n, item := |items| - 1, items[|items| - 1];
      ScoredPrefix(items, n);
      var before := Select(sizes, items[..n], budget);
      assert item.score > 0.0 ==> item.version in Scored(items);
      if item.score > 0.0 && item.version !in Scored(items[..n]) && before.used + sizes[item.version] <= budget then
        Selection(before.picks + [n], before.used + sizes[item.version])
      else before
  }

  lemma SelectStep(sizes: map<Version, nat>, items: seq<Item>, budget: int, n: nat)
    requires n < |items| && Scored(items) <= sizes.Keys
    ensures Scored(items[..n]) <= sizes.Keys && Scored(items[..n + 1]) <= sizes.Keys
    ensures items[n].score > 0.0 ==> items[n].version in sizes
    ensures Scored(items[..n + 1]) == Scored(items[..n]) + if items[n].score > 0.0 then {items[n].version} else {}
    ensures var before, item := Select(sizes, items[..n], budget), items[n];
      Select(sizes, items[..n + 1], budget) ==
      if item.score > 0.0 && item.version !in Scored(items[..n]) && before.used + sizes[item.version] <= budget then
        Selection(before.picks + [n], before.used + sizes[item.version])
      else before
  {
    ScoredPrefix(items, n);
    ScoredPrefix(items, n + 1);
    assert items[n].score > 0.0 ==> items[n].version in Scored(items);
    assert items[..n + 1] == items[..n] + [items[n]];
    assert items[..n + 1][..n] == items[..n];
    ScoredSnoc(items[..n], items[n]);
  }

  /** Positions in rank order, each the first positively scored item of its version. */
  ghost predicate Ordered(items: seq<Item>, picks: seq<nat>) {
    && (forall k :: 0 <= k < |picks| ==> PickOk(items, picks[k]))
    && forall j, k :: 0 <= j < k < |picks| ==> picks[j] < picks[k]
  }

  ghost predicate PickOk(items: seq<Item>, i: nat) {
    i < |items| && items[i].score > 0.0 && items[i].version !in Scored(items[..i])
  }

  ghost function Picked(items: seq<Item>, picks: seq<nat>): set<Version>
    requires forall k :: 0 <= k < |picks| ==> picks[k] < |items|
  {
    set k | 0 <= k < |picks| :: items[picks[k]].version
  }

  lemma {:induction false} SelectOrdered(sizes: map<Version, nat>, items: seq<Item>, budget: int)
    requires Scored(items) <= sizes.Keys
    ensures Ordered(items, Select(sizes, items, budget).picks)
  {
    if items != [] {
      var n := |items| - 1;
      assert items[..n + 1] == items;
      SelectStep(sizes, items, budget, n);
      SelectOrdered(sizes, items[..n], budget);
      forall i: nat | PickOk(items[..n], i)
        ensures PickOk(items, i)
      {
        assert items[..n][..i] == items[..i];
      }
    }
  }

  /** The picked versions are different from each other. */
  lemma PicksDiffer(items: seq<Item>, picks: seq<nat>, j: nat, k: nat)
    requires Ordered(items, picks) && j < k < |picks|
    ensures items[picks[j]].version != items[picks[k]].version
  {
    assert PickOk(items, picks[j]) && PickOk(items, picks[k]);
    assert items[..picks[k]][picks[j]] == items[picks[j]];
  }

  lemma PickedSnoc(items: seq<Item>, more: seq<Item>, picks: seq<nat>, n: nat)
    requires items <= more && n < |more| && forall k :: 0 <= k < |picks| ==> picks[k] < |items|
    ensures Picked(more, picks + [n]) == Picked(items, picks) + {more[n].version}
    ensures Picked(more, picks) == Picked(items, picks)
  {
    var next := picks + [n];
    assert forall k :: 0 <= k < |picks| ==> next[k] == picks[k] && more[picks[k]] == items[picks[k]];
    assert next[|picks|] == n;
    forall v | v in Picked(items, picks) + {more[n].version}
      ensures v in Picked(more, next)
    {
      if v in Picked(items, picks) {
        var k :| 0 <= k < |picks| && items[picks[k]].version == v;
        assert more[next[k]].version == v;
      } else {
        assert more[next[|picks|]].version == v;
      }
    }
    forall v | v in Picked(items, picks)
      ensures v in Picked(more, picks)
    {
      var k :| 0 <= k < |picks| && items[picks[k]].version == v;
      assert more[picks[k]].version == v;
    }
  }

  /** The tokens used are those of the picked versions, and stay within a budget that is not negative. */
  lemma {:induction false} SelectUsed(sizes: map<Version, nat>, items: seq<Item>, budget: int)
    requires Scored(items) <= sizes.Keys
    ensures var s := Select(sizes, items, budget);
      && Ordered(items, s.picks)
      && Picked(items, s.picks) <= sizes.Keys
      && s.used == Belady.Tokens(sizes, Picked(items, s.picks))
      && s.used <= (if budget < 0 then 0 else budget)
  {
    SelectOrdered(sizes, items, budget);
    if items != [] {
      var n := |items| - 1;
      assert items[..n + 1] == items;
      SelectStep(sizes, items, budget, n);
      SelectUsed(sizes, items[..n], budget);
      var before := Select(sizes, items[..n], budget);
      PickedSnoc(items[..n], items, before.picks, n);
      PickedAreScored(items[..n], before.picks);
      var v := items[n].version;
      if items[n].score > 0.0 && v !in Scored(items[..n]) {
        Belady.TokensWithout(sizes, Picked(items[..n], before.picks) + {v}, v);
        assert Picked(items[..n], before.picks) + {v} - {v} == Picked(items[..n], before.picks);
      }
    }
  }

  lemma PickedAreScored(items: seq<Item>, picks: seq<nat>)
    requires Ordered(items, picks)
    ensures Picked(items, picks) <= Scored(items)
  {
    forall v | v in Picked(items, picks)
      ensures v in Scored(items)
    {
      var k :| 0 <= k < |picks| && items[picks[k]].version == v;
      assert PickOk(items, picks[k]);
    }
  }

  /** Greedy-maximal: whatever has a positive score and was not selected does not fit at the end either. */
  lemma {:induction false} SelectMaximal(sizes: map<Version, nat>, items: seq<Item>, budget: int, v: Version)
    requires Scored(items) <= sizes.Keys && v in Scored(items)
    ensures v in sizes
    ensures var s := Select(sizes, items, budget);
      && Ordered(items, s.picks)
      && (v in Picked(items, s.picks) || s.used + sizes[v] > budget)
  {
    SelectOrdered(sizes, items, budget);
    var n := |items| - 1;
    assert items[..n + 1] == items;
    SelectStep(sizes, items, budget, n);
    SelectOrdered(sizes, items[..n], budget);
    var before := Select(sizes, items[..n], budget);
    PickedSnoc(items[..n], items, before.picks, n);
    if v in Scored(items[..n]) {
      SelectMaximal(sizes, items[..n], budget, v);
    }
  }

  /** Higher ranks first: a candidate is picked exactly if it fits beside the better-ranked picks. */
  lemma {:induction false} PickedIffFits(sizes: map<Version, nat>, items: seq<Item>, budget: int, i: nat)
    requires Scored(items) <= sizes.Keys && PickOk(items, i)
    ensures Scored(items[..i]) <= sizes.Keys && items[i].version in sizes
    ensures i in Select(sizes, items, budget).picks <==>
            Select(sizes, items[..i], budget).used + sizes[items[i].version] <= budget
  {
    var n := |items| - 1;
    assert items[..n + 1] == items;
    SelectStep(sizes, items, budget, n);
    SelectOrdered(sizes, items[..n], budget);
    if i < n {
      assert items[..n][..i] == items[..i];
      PickedIffFits(sizes, items[..n], budget, i);
    } else {
      assert forall k :: 0 <= k < |Select(sizes, items[..n], budget).picks| ==>
          PickOk(items[..n], Select(sizes, items[..n], budget).picks[k]);
    }
  }

  // ----- the loop -----

  datatype Plan = Plan(versions: seq<Version>, chunks: seq<string>, tokens: nat, utilization: real)

  ghost predicate Follows(sizes: map<Version, nat>, items: seq<Item>, budget: int, i: nat, plan: Plan)
    requires i <= |items| && Scored(items[..i]) <= sizes.Keys
  {
    var s := Select(sizes, items[..i], budget);
    && Ordered(items[..i], s.picks)
    && plan.tokens == s.used
    && |plan.versions| == |plan.chunks| == |s.picks|
    && forall k :: 0 <= k < |s.picks| ==>
         plan.versions[k] == items[s.picks[k]].version && plan.chunks[k] == items[s.picks[k]].chunk
  }

  /** select_budget. None stands for the KeyError of a positively scored version that is not listed. */
  method SelectBudget(items: seq<Item>, sizes: map<Version, nat>, budget: int) returns (plan: Option<Plan>)
    ensures plan.None? <==> !(Scored(items) <= sizes.Keys)
    ensures plan.Some? ==>
      && Scored(items[..|items|]) <= sizes.Keys && Follows(sizes, items, budget, |items|, plan.value)
      && plan.value.utilization == if budget == 0 then 0.0 else plan.value.tokens as real / budget as real
  {
    var versions: seq<Version>, chunks: seq<string>, seen: set<Version>, used: nat := [], [], {}, 0;
    assert items[..0] == [];
    for i := 0 to |items|
      invariant seen == Scored(items[..i]) && seen <= sizes.Keys
      invariant Follows(sizes, items, budget, i, Plan(versions, chunks, used, 0.0))
    {
      var item := items[i];
      ghost var before := Plan(versions, chunks, used, 0.0);
      assert items[..i + 1] == items[..i] + [item];
      ScoredSnoc(items[..i], item);
      if item.score > 0.0 && item.version !in seen {
        if item.version !in sizes {
          ScoredPrefix(items, i + 1);
          return None;
        }
        PlanNext(sizes, items, budget, i, before);
        seen := seen + {item.version};
        var cost := sizes[item.version];
        if used + cost <= budget {
          versions := versions + [item.version];
          chunks := chunks + [item.chunk];
          used := used + cost;
        }
      } else {
        PlanNext(sizes, items, budget, i, before);
      }
    }
    assert items[..|items|] == items;
    plan := Some(Plan(versions, chunks, used, if budget == 0 then 0.0 else used as real / budget as real));
  }

  lemma FollowsStep(sizes: map<Version, nat>, items: seq<Item>, budget: int, n: nat)
    requires n < |items| && Scored(items[..n + 1]) <= sizes.Keys
    ensures Scored(items[..n]) <= sizes.Keys && Ordered(items[..n + 1], Select(sizes, items[..n + 1], budget).picks)
    ensures items[n].score > 0.0 ==> items[n].version in sizes
    ensures var before, item := Select(sizes, items[..n], budget), items[n];
      Select(sizes, items[..n + 1], budget) ==
      if item.score > 0.0 && item.version !in Scored(items[..n]) && before.used + sizes[item.version] <= budget then
        Selection(before.picks + [n], before.used + sizes[item.version])
      else before
  {
    var part := items[..n + 1];
    assert part[..n] == items[..n] && part[..n + 1] == part && part[n] == items[n];
    SelectStep(sizes, part, budget, n);
    SelectOrdered(sizes, part, budget);
  }

  function PlanWith(plan: Plan, item: Item, cost: nat): Plan {
    plan.(versions := plan.versions + [item.version], chunks := plan.chunks + [item.chunk],
          tokens := plan.tokens + cost)
  }

  lemma PlanNext(sizes: map<Version, nat>, items: seq<Item>, budget: int, n: nat, plan: Plan)
    requires n < |items| && Scored(items[..n + 1]) <= sizes.Keys
    ensures Scored(items[..n]) <= sizes.Keys && (items[n].score > 0.0 ==> items[n].version in sizes)
    ensures Follows(sizes, items, budget, n, plan) ==>
      var item := items[n];
      if item.score > 0.0 && item.version !in Scored(items[..n]) && plan.tokens + sizes[item.version] <= budget then
        Follows(sizes, items, budget, n + 1, PlanWith(plan, item, sizes[item.version]))
      else Follows(sizes, items, budget, n + 1, plan)
  {
    FollowsStep(sizes, items, budget, n);
  }

  // ----- version-aware plans -----

  /** Kept lists items of the ranking at increasing positions. */
  ghost predicate TakenFrom(kept: seq<Item>, items: seq<Item>, at: seq<nat>) {
    && |at| == |kept|
    && (forall k :: 0 <= k < |at| ==> at[k] < |items| && kept[k] == items[at[k]])
    && forall j, k :: 0 <= j < k < |at| ==> at[j] < at[k]
  }

  lemma TakenMore(kept: seq<Item>, items: seq<Item>, at: seq<nat>)
    requires items != [] && TakenFrom(kept, items[..|items| - 1], at)
    ensures TakenFrom(kept, items, at)
    ensures TakenFrom(kept + [items[|items| - 1]], items, at + [|items| - 1])
  {
  }

  lemma {:induction false} KeptInOrder(items: seq<Item>, keep: set<Version>) returns (at: seq<nat>)
    ensures TakenFrom(Kept(items, keep), items, at)
  {
    at := [];
    if items != [] {
      var n := |items| - 1;
      var before := KeptInOrder(items[..n], keep);
      TakenMore(Kept(items[..n], keep), items, before);
      at := if items[n].version in keep then before + [n] else before;
      assert Kept(items[..n], keep) + [] == Kept(items[..n], keep);
    }
  }

  /** Selected chunk k is the item at position at[k], and these positions increase: rank order is kept. */
  ghost predicate InRankOrder(items: seq<Item>, plan: Plan, at: seq<nat>) {
    && |at| == |plan.versions| == |plan.chunks|
    && (forall k :: 0 <= k < |at| ==> at[k] < |items|)
    && (forall k :: 0 <= k < |at| ==> PlannedAt(items, plan, k, at[k]))
    && forall j, k :: 0 <= j < k < |at| ==> at[j] < at[k]
  }

  ghost predicate PlannedAt(items: seq<Item>, plan: Plan, k: nat, i: nat)
    requires k < |plan.versions| && k < |plan.chunks| && i < |items|
  {
    plan.versions[k] == items[i].version && plan.chunks[k] == items[i].chunk && items[i].score > 0.0
  }

  lemma PlanInOrder(sizes: map<Version, nat>, items: seq<Item>, keep: set<Version>, budget: int, plan: Plan)
    returns (at: seq<nat>)
    requires var kept := Kept(items, keep);
      Scored(kept) <= sizes.Keys && Scored(kept[..|kept|]) <= sizes.Keys && Follows(sizes, kept, budget, |kept|, plan)
    ensures InRankOrder(items, plan, at)
  {
    var kept := Kept(items, keep);
    assert kept[..|kept|] == kept;
    var from := KeptInOrder(items, keep);
    var picks := Select(sizes, kept, budget).picks;
    assert forall k :: 0 <= k < |picks| ==> PickOk(kept, picks[k]);
    at := seq(|picks|, k requires 0 <= k < |picks| => from[picks[k]]);
  }

  /** Every selected version has started and is not superseded, no two share a document, and the budget holds. */
  ghost predicate PlanSound(catalog: Catalog, at: int, budget: int, plan: Plan)
    requires catalog.Sized()
  {
    && (forall k :: 0 <= k < |plan.versions| ==>
          plan.versions[k] in catalog.manifest && Begun(catalog.manifest, at, plan.versions[k]))
    && (forall j, k :: 0 <= j < k < |plan.versions| ==>
          catalog.manifest[plan.versions[j]].artifact != catalog.manifest[plan.versions[k]].artifact)
    && plan.tokens == Belady.Tokens(catalog.sizes, Elements(plan.versions))
    && plan.tokens <= (if budget < 0 then 0 else budget)
  }

  /** No item of a version in force with a positive score is left out while it still fits. */
  ghost predicate PlanMaximal(catalog: Catalog, items: seq<Item>, at: int, budget: int, plan: Plan)
    requires catalog.Sized() && AllListed(items, catalog.manifest)
  {
    forall i :: 0 <= i < |items| && items[i].score > 0.0
                && InForce(catalog.manifest, Versions(items), at, items[i].version) ==>
      items[i].version in plan.versions || plan.tokens + catalog.sizes[items[i].version] > budget
  }

  lemma PickedElements(items: seq<Item>, picks: seq<nat>, versions: seq<Version>)
    requires |versions| == |picks|
    requires forall k :: 0 <= k < |picks| ==> picks[k] < |items| && versions[k] == items[picks[k]].version
    ensures Picked(items, picks) == Elements(versions)
  {
    forall v | v in Elements(versions)
      ensures v in Picked(items, picks)
    {
      var k :| 0 <= k < |versions| && versions[k] == v;
      assert items[picks[k]].version == v;
    }
    forall v | v in Picked(items, picks)
      ensures v in Elements(versions)
    {
      var k :| 0 <= k < |picks| && items[picks[k]].version == v;
      assert versions[k] == v;
    }
  }

  lemma ScoredKept(items: seq<Item>, keep: set<Version>)
    ensures Scored(Kept(items, keep)) == Scored(items) * keep
  {
    KeptFacts(items, keep);
    var kept := Kept(items, keep);
    forall v | v in Scored(items) * keep
      ensures v in Scored(kept)
    {
      var i :| 0 <= i < |items| && items[i].score > 0.0 && items[i].version == v;
      assert items[i] in kept;
      var j :| 0 <= j < |kept| && kept[j] == items[i];
    }
    forall v | v in Scored(kept)
      ensures v in Scored(items) * keep
    {
      var j :| 0 <= j < |kept| && kept[j].score > 0.0 && kept[j].version == v;
      assert kept[j] in kept;
      var i :| 0 <= i < |items| && items[i] == kept[j];
    }
  }

  lemma PlanIsSound(catalog: Catalog, items: seq<Item>, at: int, budget: int, plan: Plan)
    requires catalog.Sized() && AllListed(items, catalog.manifest)
    requires var allowed := AllLatest(catalog.manifest, ActiveAmong(catalog.manifest, Versions(items), at));
      var kept := Kept(items, allowed);
      Scored(kept[..|kept|]) <= catalog.sizes.Keys && Follows(catalog.sizes, kept, budget, |kept|, plan)
    ensures PlanSound(catalog, at, budget, plan)
    ensures PlanMaximal(catalog, items, at, budget, plan)
  {
    var active := ActiveAmong(catalog.manifest, Versions(items), at);
    var allowed := AllLatest(catalog.manifest, active);
    var kept := Kept(items, allowed);
    assert kept[..|kept|] == kept;
    var picks := Select(catalog.sizes, kept, budget).picks;
    ScoredKept(items, allowed);
    SelectUsed(catalog.sizes, kept, budget);
    assert forall k :: 0 <= k < |picks| ==> PickOk(kept, picks[k]);
    PickedElements(kept, picks, plan.versions);
    PickedAreScored(kept, picks);
    forall k | 0 <= k < |plan.versions|
      ensures plan.versions[k] in allowed
    {
      assert plan.versions[k] in Elements(plan.versions);
    }
    forall j, k | 0 <= j < k < |plan.versions|
      ensures catalog.manifest[plan.versions[j]].artifact != catalog.manifest[plan.versions[k]].artifact
    {
      PicksDiffer(kept, picks, j, k);
    }
    forall i | 0 <= i < |items| && items[i].score > 0.0
               && InForce(catalog.manifest, Versions(items), at, items[i].version)
      ensures items[i].version in plan.versions || plan.tokens + catalog.sizes[items[i].version] > budget
    {
      var v := items[i].version;
      LatestIsInForce(catalog.manifest, Versions(items), at, v);
      SelectMaximal(catalog.sizes, kept, budget, v);
      assert v in Picked(kept, picks) ==> v in Elements(plan.versions);
    }
  }

  datatype Planned = Planned(plan: Plan, audit: Audit) | MissingKey | NoMaximum

  /** The body of rag_va_plans: filter the ranking of one task, then select. */
  method PlanTask(items: seq<Item>, catalog: Catalog, at: int, budget: int)
    returns (r: Planned, ghost positions: seq<nat>)
    requires catalog.Sized()
    ensures r == MissingKey <==> !AllListed(items, catalog.manifest)
    ensures !r.NoMaximum?
    ensures r.Planned? ==>
      && InRankOrder(items, r.plan, positions)
      && PlanSound(catalog, at, budget, r.plan)
      && PlanMaximal(catalog, items, at, budget, r.plan)
  {
    positions := [];
    var filtered := VersionAwareRanked(items, catalog.manifest, at);
    if filtered.KeyError? {
      return MissingKey, positions;
    }
    if filtered.EmptyMaximum? {
      return NoMaximum, positions;
    }
    ghost var allowed := AllLatest(catalog.manifest, ActiveAmong(catalog.manifest, Versions(items), at));
    ScoredKept(items, allowed);
    var plan := SelectBudget(filtered.items, catalog.sizes, budget);
    if plan.None? {
      return MissingKey, positions;
    }
    assert filtered.items[..|filtered.items|] == filtered.items;
    positions := PlanInOrder(catalog.sizes, items, allowed, budget, plan.value);
    PlanIsSound(catalog, items, at, budget, plan.value);
    r := Planned(plan.value, filtered.audit);
  }
}
