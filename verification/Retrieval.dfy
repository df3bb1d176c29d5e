/** Version filtering of a ranking (src/karc/bench/e4_retrieval.py). */
module Retrieval {
  import opened Collections
  import Belady
  import opened ReuseSchedule
  import Sorting
  import StringOrder

  type Version = Belady.Version

  /** A scored chunk; its version is the key of the manifest, which names the document. */
  datatype Item = Item(score: real, chunk: string, version: Version)

  /** The manifest with the token size of every version that it lists. */
  datatype Catalog = Catalog(manifest: Manifest, sizes: map<Version, nat>) {
    ghost predicate Sized() {
      manifest.Keys == sizes.Keys
    }
  }

  function Versions(items: seq<Item>): (r: set<Version>)
  {
    set i | 0 <= i < |items| :: items[i].version
  }

  lemma VersionsSnoc(items: seq<Item>, item: Item)
    ensures Versions(items + [item]) == Versions(items) + {item.version}
  {
    var more := items + [item];
    assert forall i :: 0 <= i < |items| ==> more[i] == items[i];
    assert more[|items|] == item;
  }

  // ----- the version filter -----

  /** The items of some versions, in rank order. */
  function Kept(items: seq<Item>, keep: set<Version>): seq<Item> {
    if items == [] then []
    else
      var n := |items| - 1;
      Kept(items[..n], keep) + if items[n].version in keep then [items[n]] else []
  }

  lemma {:induction false} KeptFacts(items: seq<Item>, keep: set<Version>)
    ensures forall item :: item in Kept(items, keep) <==> item in items && item.version in keep
    ensures Versions(Kept(items, keep)) == Versions(items) * keep
  {
    if items != [] {
      var n := |items| - 1;
      KeptFacts(items[..n], keep);
      assert items == items[..n] + [items[n]];
      VersionsSnoc(items[..n], items[n]);
      VersionsSnoc(Kept(items[..n], keep), items[n]);
    }
  }

  lemma KeptSnoc(items: seq<Item>, item: Item, keep: set<Version>)
    ensures Kept(items + [item], keep) == Kept(items, keep) + if item.version in keep then [item] else []
  {
    assert (items + [item])[..|items|] == items;
  }

  lemma {:induction false} KeptTwice(items: seq<Item>, a: set<Version>, b: set<Version>)
    ensures Kept(Kept(items, a), b) == Kept(items, a * b)
  {
    if items != [] {
      var n := |items| - 1;
      var h := Kept(items[..n], a);
      KeptTwice(items[..n], a, b);
      KeptSnoc(h, items[n], b);
      assert h + [] == h;
    }
  }

  function ActiveAmong(manifest: Manifest, versions: set<Version>, at: int): set<Version>
    requires versions <= manifest.Keys
  {
    set v | v in versions && Active(manifest[v], at)
  }

  /** The versions of one document. */
  function Group(manifest: Manifest, versions: set<Version>, a: Artifact): set<Version>
    requires versions <= manifest.Keys
  {
    set v | v in versions && manifest[v].artifact == a
  }

  ghost predicate Started(manifest: Manifest, versions: set<Version>) {
    forall v :: v in versions ==> v in manifest && manifest[v].validFrom.Some?
  }

  /** Every other candidate version of the same document started strictly earlier. */
  ghost predicate Latest(manifest: Manifest, versions: set<Version>, v: Version)
    requires Started(manifest, versions)
  {
    && v in versions
    && forall w :: w in versions && w != v && manifest[w].artifact == manifest[v].artifact ==>
         manifest[w].validFrom.value < manifest[v].validFrom.value
  }

  ghost function AllLatest(manifest: Manifest, versions: set<Version>): set<Version>
    requires Started(manifest, versions)
  {
    set v | v in versions && Latest(manifest, versions, v)
  }

  /** max over the starts of a conflict; None would be the ValueError of max on an empty collection. */
  method GreatestStart(manifest: Manifest, versions: set<Version>) returns (greatest: Option<int>)
    requires Started(manifest, versions)
    ensures greatest.None? <==> versions == {}
    ensures greatest.Some? ==>
      && (forall v :: v in versions ==> manifest[v].validFrom.value <= greatest.value)
      && exists v :: v in versions && manifest[v].validFrom.value == greatest.value
  {
    greatest := None;
    var rest := versions;
    while rest != {}
      invariant rest <= versions
      invariant greatest.None? ==> rest == versions
      invariant greatest.Some? ==>
        && (forall v :: v in versions - rest ==> manifest[v].validFrom.value <= greatest.value)
        && exists v :: v in versions && manifest[v].validFrom.value == greatest.value
    {
      var v :| v in rest;
      var start := manifest[v].validFrom.value;
      if greatest.None? || greatest.value < start {
        greatest := Some(start);
      }
      rest := rest - {v};
    }
  }

  datatype Resolution = Allowed(versions: set<Version>) | Unresolved | EmptyMax

  /** The rule for one document: its only version, or the unique latest one, or none. */
  method ResolveGroup(manifest: Manifest, versions: set<Version>, a: Artifact) returns (r: Resolution)
    requires Started(manifest, versions) && versions != {}
    requires forall v :: v in versions ==> manifest[v].artifact == a
    ensures r.Allowed? ==> r.versions == AllLatest(manifest, versions) && r.versions != {}
    ensures r.Unresolved? ==> AllLatest(manifest, versions) == {} && |versions| >= 2
    ensures !r.EmptyMax?
  {
    var some :| some in versions;
    if |versions| == 1 {
      assert versions == {some} by {
        SubsetCardinality({some}, versions);
      }
      return Allowed(versions);
    }
    assert |versions| >= 2 by {
      SubsetCardinality({some}, versions);
    }
    var greatest := GreatestStart(manifest, versions);
    if greatest.None? {
      return EmptyMax;
    }
    var winners := set v | v in versions && manifest[v].validFrom == Some(greatest.value);
    WinnersAreLatest(manifest, versions, a, greatest.value, winners);
    r := if |winners| == 1 then Allowed(winners) else Unresolved;
  }

  lemma WinnersAreLatest(manifest: Manifest, versions: set<Version>, a: Artifact, greatest: int, winners: set<Version>)
    requires Started(manifest, versions)
    requires forall v :: v in versions ==> manifest[v].artifact == a && manifest[v].validFrom.value <= greatest
    requires exists v :: v in versions && manifest[v].validFrom.value == greatest
    requires winners == set v | v in versions && manifest[v].validFrom == Some(greatest)
    ensures AllLatest(manifest, versions) == (if |winners| == 1 then winners else {})
  {
    var w :| w in versions && manifest[w].validFrom.value == greatest;
    assert w in winners;
    SubsetCardinality({w}, winners);
    if |winners| == 1 {
      assert winners == {w};
      forall v | v in versions && v != w
        ensures manifest[v].validFrom.value != greatest
      {
        assert v !in winners;
      }
      assert Latest(manifest, versions, w);
      assert forall v :: v in versions && v != w ==> !Latest(manifest, versions, v);
    } else {
      assert winners != {w};
      var other :| other in winners && other != w;
    }
  }

  datatype Audit = Audit(excluded: nat, conflicts: nat, unresolved: seq<Artifact>)

  /** The order in which the unresolved documents are reported. */
  function ById(): (Artifact, Artifact) -> bool {
    (a: Artifact, b: Artifact) => StringOrder.Less(a.id, b.id)
  }

  lemma ByIdOrders(s: set<Artifact>)
    ensures Sorting.Transitive(ById())
    ensures forall a, b :: a in s && b in s && a != b ==> ById()(a, b) || ById()(b, a)
  {
    forall a: Artifact, b: Artifact, c: Artifact | ById()(a, b) && ById()(b, c)
      ensures ById()(a, c)
    {
      StringOrder.Transitive(a.id, b.id, c.id);
    }
    forall a, b | a in s && b in s && a != b
      ensures ById()(a, b) || ById()(b, a)
    {
      StringOrder.Trichotomy(a.id, b.id);
    }
  }

  datatype Filtering = Filtered(items: seq<Item>, audit: Audit) | KeyError | EmptyMaximum

  function Documents(manifest: Manifest, versions: set<Version>): set<Artifact>
    requires versions <= manifest.Keys
  {
    set v | v in versions :: manifest[v].artifact
  }

  ghost function Conflicts(manifest: Manifest, versions: set<Version>, among: set<Artifact>): set<Artifact>
    requires versions <= manifest.Keys
  {
    set a | a in among && |Group(manifest, versions, a)| >= 2
  }

  /** Documents whose latest start is shared by two or more of their candidate versions. */
  ghost function Tied(manifest: Manifest, versions: set<Version>, among: set<Artifact>): set<Artifact>
    requires versions <= manifest.Keys && Started(manifest, versions)
  {
    set a | a in among && forall v :: v in Group(manifest, versions, a) ==> !Latest(manifest, versions, v)
  }

  lemma LatestInGroup(manifest: Manifest, versions: set<Version>, a: Artifact)
    requires versions <= manifest.Keys && Started(manifest, versions)
    ensures Started(manifest, Group(manifest, versions, a))
    ensures AllLatest(manifest, Group(manifest, versions, a)) ==
            AllLatest(manifest, versions) * Group(manifest, versions, a)
  {
  }

  /** The loop over the documents: what the handled ones have contributed. */
  ghost predicate Resolved(manifest: Manifest, versions: set<Version>, handled: set<Artifact>,
                           allowed: set<Version>, conflicts: nat, unresolved: set<Artifact>)
    requires versions <= manifest.Keys && Started(manifest, versions)
  {
    && allowed == (set v | v in AllLatest(manifest, versions) && manifest[v].artifact in handled)
    && conflicts == |Conflicts(manifest, versions, handled)|
    && unresolved == Tied(manifest, versions, handled)
  }

  lemma ConflictsMore(manifest: Manifest, versions: set<Version>, handled: set<Artifact>, a: Artifact)
    requires versions <= manifest.Keys && a !in handled
    ensures |Conflicts(manifest, versions, handled + {a})| ==
            |Conflicts(manifest, versions, handled)| + if |Group(manifest, versions, a)| >= 2 then 1 else 0
  {
    var more := Conflicts(manifest, versions, handled + {a});
    if |Group(manifest, versions, a)| >= 2 {
      assert more == Conflicts(manifest, versions, handled) + {a};
    } else {
      assert more == Conflicts(manifest, versions, handled);
    }
  }

  lemma TiedMore(manifest: Manifest, versions: set<Version>, handled: set<Artifact>, a: Artifact)
    requires versions <= manifest.Keys && Started(manifest, versions) && a !in handled
    ensures Started(manifest, Group(manifest, versions, a))
    ensures var more := AllLatest(manifest, Group(manifest, versions, a));
      Tied(manifest, versions, handled + {a}) == Tied(manifest, versions, handled) + if more == {} then {a} else {}
  {
    LatestInGroup(manifest, versions, a);
    var group := Group(manifest, versions, a);
    var more := AllLatest(manifest, group);
    if v :| v in group && Latest(manifest, versions, v) {
      assert v in more;
    } else {
      assert more == {};
    }
    assert a in Tied(manifest, versions, handled + {a}) <==> more == {};
  }

  lemma AllowedMore(manifest: Manifest, versions: set<Version>, handled: set<Artifact>, a: Artifact)
    requires versions <= manifest.Keys && Started(manifest, versions) && a !in handled
    ensures Started(manifest, Group(manifest, versions, a))
    ensures (set v | v in AllLatest(manifest, versions) && manifest[v].artifact in handled + {a}) ==
            (set v | v in AllLatest(manifest, versions) && manifest[v].artifact in handled)
            + AllLatest(manifest, Group(manifest, versions, a))
  {
    LatestInGroup(manifest, versions, a);
  }

  lemma GroupInhabited(manifest: Manifest, versions: set<Version>, a: Artifact)
    requires versions <= manifest.Keys && a in Documents(manifest, versions)
    ensures |Group(manifest, versions, a)| >= 1
  {
    var v :| v in versions && manifest[v].artifact == a;
    assert v in Group(manifest, versions, a);
  }

  /** A document's outcome joins the totals. */
  lemma ResolvedMore(manifest: Manifest, versions: set<Version>, handled: set<Artifact>, a: Artifact,
                     allowed: set<Version>, conflicts: nat, unresolved: set<Artifact>)
    requires versions <= manifest.Keys && Started(manifest, versions) && a !in handled
    requires Resolved(manifest, versions, handled, allowed, conflicts, unresolved)
    ensures Started(manifest, Group(manifest, versions, a))
    ensures var group := Group(manifest, versions, a);
      var latest := AllLatest(manifest, group);
      Resolved(manifest, versions, handled + {a}, allowed + latest, conflicts + (if |group| >= 2 then 1 else 0),
               unresolved + if latest == {} then {a} else {})
  {
    ConflictsMore(manifest, versions, handled, a);
    TiedMore(manifest, versions, handled, a);
    AllowedMore(manifest, versions, handled, a);
  }

  /** The loop over by_artifact. */
  method ResolveAll(manifest: Manifest, versions: set<Version>)
    returns (allowed: set<Version>, conflicts: nat, unresolved: set<Artifact>, failed: bool)
    requires versions <= manifest.Keys && Started(manifest, versions)
    ensures !failed && Resolved(manifest, versions, Documents(manifest, versions), allowed, conflicts, unresolved)
  {
    allowed, conflicts, unresolved, failed := {}, 0, {}, false;
    var documents := Documents(manifest, versions);
    var rest := documents;
    assert Conflicts(manifest, versions, {}) == {};
    while rest != {}
      invariant rest <= documents && !failed
      invariant Resolved(manifest, versions, documents - rest, allowed, conflicts, unresolved)
    {
      var a :| a in rest;
      ghost var handled := documents - rest;
      ResolvedMore(manifest, versions, handled, a, allowed, conflicts, unresolved);
      var group := Group(manifest, versions, a);
      GroupInhabited(manifest, versions, a);
      var r := ResolveGroup(manifest, group, a);
      conflicts := conflicts + if |group| == 1 then 0 else 1;
      match r {
        case Allowed(more) => allowed := allowed + more;
        case Unresolved => unresolved := unresolved + {a};
        case EmptyMax => failed := true;
      }
      rest := rest - {a};
      assert documents - rest == handled + {a};
    }
    assert documents - rest == documents;
  }

  /** Every version named by an item is listed. */
  ghost predicate AllListed(items: seq<Item>, manifest: Manifest) {
    Versions(items) <= manifest.Keys
  }

  /** Version v has started and is not superseded. */
  ghost predicate Begun(manifest: Manifest, at: int, v: Version)
    requires v in manifest
  {
    && manifest[v].validFrom.Some? && manifest[v].validFrom.value <= at
    && (manifest[v].supersededAt.Some? ==> at < manifest[v].supersededAt.value)
  }

  /** It has, and all others of its document among versions that have too started strictly earlier. */
  ghost predicate InForce(manifest: Manifest, versions: set<Version>, at: int, v: Version)
    requires versions <= manifest.Keys
  {
    && v in versions && Begun(manifest, at, v)
    && forall w :: w in versions && w != v && manifest[w].artifact == manifest[v].artifact && Begun(manifest, at, w) ==>
         manifest[w].validFrom.value < manifest[v].validFrom.value
  }

  lemma LatestIsInForce(manifest: Manifest, versions: set<Version>, at: int, v: Version)
    requires versions <= manifest.Keys
    ensures Started(manifest, ActiveAmong(manifest, versions, at))
    ensures v in AllLatest(manifest, ActiveAmong(manifest, versions, at)) <==> InForce(manifest, versions, at, v)
  {
    var active := ActiveAmong(manifest, versions, at);
    if InForce(manifest, versions, at, v) {
      assert Latest(manifest, active, v);
    }
    if v in AllLatest(manifest, active) {
      forall w | w in versions && w != v && manifest[w].artifact == manifest[v].artifact && Begun(manifest, at, w)
        ensures manifest[w].validFrom.value < manifest[v].validFrom.value
      {
        assert w in active;
      }
    }
  }

  lemma KeptInForce(items: seq<Item>, manifest: Manifest, at: int, item: Item)
    requires AllListed(items, manifest)
    ensures Started(manifest, ActiveAmong(manifest, Versions(items), at))
    ensures item in Kept(items, AllLatest(manifest, ActiveAmong(manifest, Versions(items), at))) <==>
            item in items && InForce(manifest, Versions(items), at, item.version)
  {
    LatestIsInForce(manifest, Versions(items), at, item.version);
    KeptFacts(items, AllLatest(manifest, ActiveAmong(manifest, Versions(items), at)));
  }

  /** Two different versions of the document that have started and are not superseded. */
  ghost predicate Contested(manifest: Manifest, versions: set<Version>, at: int, a: Artifact)
    requires versions <= manifest.Keys
  {
    exists v, w :: v in versions && w in versions && v != w && Begun(manifest, at, v) && Begun(manifest, at, w)
                   && manifest[v].artifact == a && manifest[w].artifact == a
  }

  lemma ConflictsAreContested(manifest: Manifest, versions: set<Version>, at: int, a: Artifact)
    requires versions <= manifest.Keys
    ensures var active := ActiveAmong(manifest, versions, at);
      a in Conflicts(manifest, active, Documents(manifest, active)) <==> Contested(manifest, versions, at, a)
  {
    var active := ActiveAmong(manifest, versions, at);
    var group := Group(manifest, active, a);
    if a in Conflicts(manifest, active, Documents(manifest, active)) {
      var v :| v in group;
      assert group != {v};
      var w :| w in group && w != v;
    }
    if v, w :| v in versions && w in versions && v != w && Begun(manifest, at, v) && Begun(manifest, at, w)
               && manifest[v].artifact == a && manifest[w].artifact == a {
      assert v in group && w in group && v in active;
      SubsetCardinality({v, w}, group);
    }
  }

  lemma ActiveDocument(manifest: Manifest, versions: set<Version>, at: int, a: Artifact)
    requires versions <= manifest.Keys
    ensures a in Documents(manifest, ActiveAmong(manifest, versions, at)) <==>
            exists v :: v in versions && Begun(manifest, at, v) && manifest[v].artifact == a
  {
    if v :| v in versions && Begun(manifest, at, v) && manifest[v].artifact == a {
      assert v in ActiveAmong(manifest, versions, at);
    }
  }

  lemma NoneInForce(manifest: Manifest, versions: set<Version>, at: int, a: Artifact)
    requires versions <= manifest.Keys
    ensures Started(manifest, ActiveAmong(manifest, versions, at))
    ensures var active := ActiveAmong(manifest, versions, at);
      (forall v :: v in Group(manifest, active, a) ==> !Latest(manifest, active, v)) <==>
      forall v :: InForce(manifest, versions, at, v) ==> manifest[v].artifact != a
  {
    var active := ActiveAmong(manifest, versions, at);
    forall v
      ensures v in AllLatest(manifest, active) <==> InForce(manifest, versions, at, v)
    {
      LatestIsInForce(manifest, versions, at, v);
    }
    if v :| v in Group(manifest, active, a) && Latest(manifest, active, v) {
      assert v in AllLatest(manifest, active);
    }
    if v :| InForce(manifest, versions, at, v) && manifest[v].artifact == a {
      assert v in AllLatest(manifest, active) && v in Group(manifest, active, a);
    }
  }

  /** Unresolved are the documents of which some version has begun and none is in force. */
  lemma TiedAreUnresolved(manifest: Manifest, versions: set<Version>, at: int, a: Artifact)
    requires versions <= manifest.Keys
    ensures Started(manifest, ActiveAmong(manifest, versions, at))
    ensures var active := ActiveAmong(manifest, versions, at);
      a in Tied(manifest, active, Documents(manifest, active)) <==>
        && (exists v :: v in versions && Begun(manifest, at, v) && manifest[v].artifact == a)
        && forall v :: InForce(manifest, versions, at, v) ==> manifest[v].artifact != a
  {
    ActiveDocument(manifest, versions, at, a);
    NoneInForce(manifest, versions, at, a);
  }

  /**
   * version_aware_ranked: exactly the items of active versions that started strictly later than every other active
   * version of their document in the ranking, in rank order. The maximum over the starts is never of nothing.
   */
  method VersionAwareRanked(items: seq<Item>, manifest: Manifest, at: int) returns (r: Filtering)
    ensures r == KeyError <==> !AllListed(items, manifest)
    ensures !r.EmptyMaximum?
    ensures r.Filtered? ==>
      var active := ActiveAmong(manifest, Versions(items), at);
      && Started(manifest, active)
      && r.items == Kept(items, AllLatest(manifest, active))
      && (forall item :: item in r.items <==> item in items && InForce(manifest, Versions(items), at, item.version))
      && r.audit.excluded == |items| - |Kept(items, active)|
      && r.audit.conflicts == |Conflicts(manifest, active, Documents(manifest, active))|
      && (forall i, j :: 0 <= i < j < |r.audit.unresolved| ==>
            StringOrder.Less(r.audit.unresolved[i].id, r.audit.unresolved[j].id))
      && multiset(r.audit.unresolved) == multiset(Tied(manifest, active, Documents(manifest, active)))
  {
    var current: seq<Item> := [];
    for i := 0 to |items|
      invariant AllListed(items[..i], manifest)
      invariant current == Kept(items[..i], ActiveAmong(manifest, Versions(items[..i]), at))
    {
      assert items[..i + 1] == items[..i] + [items[i]];
      VersionsSnoc(items[..i], items[i]);
      if items[i].version !in manifest {
        VersionsPrefix(items, i + 1);
        return KeyError;
      }
      CurrentStep(items, manifest, at, i);
      if Active(manifest[items[i].version], at) {
        current := current + [items[i]];
      }
    }
    assert items[..|items|] == items;
    ghost var active := ActiveAmong(manifest, Versions(items), at);
    KeptFacts(items, active);
    var versions := Versions(current);
    assert versions == active;
    var allowed, conflicts, unresolved, failed := ResolveAll(manifest, versions);
    if failed {
      return EmptyMaximum;
    }
    assert allowed == AllLatest(manifest, active);
    var kept := KeepVersions(current, allowed);
    KeptTwice(items, active, allowed);
    assert active * allowed == allowed;
    KeptLength(items, active);
    ByIdOrders(unresolved);
    var listed := Sorting.SortSet(unresolved, ById());
    forall item
      ensures item in kept <==> item in items && InForce(manifest, Versions(items), at, item.version)
    {
      KeptInForce(items, manifest, at, item);
    }
    r := Filtered(kept, Audit(|items| - |current|, conflicts, listed));
  }

  lemma VersionsPrefix(items: seq<Item>, i: nat)
    requires i <= |items|
    ensures Versions(items[..i]) <= Versions(items)
  {
    forall v | v in Versions(items[..i])
      ensures v in Versions(items)
    {
      var j :| 0 <= j < i && items[..i][j].version == v;
      assert items[j].version == v;
    }
  }

  lemma {:induction false} KeptLength(items: seq<Item>, keep: set<Version>)
    ensures |Kept(items, keep)| <= |items|
  {
    if items != [] {
      KeptLength(items[..|items| - 1], keep);
    }
  }

  lemma {:induction false} KeptSame(items: seq<Item>, a: set<Version>, b: set<Version>)
    requires Versions(items) * a == Versions(items) * b
    ensures Kept(items, a) == Kept(items, b)
  {
    if items != [] {
      var n := |items| - 1;
      assert items == items[..n] + [items[n]];
      VersionsSnoc(items[..n], items[n]);
      assert items[n].version in Versions(items);
      assert forall v :: v in Versions(items[..n]) ==> v in Versions(items) && (v in Versions(items) * a <==> v in a);
      assert Versions(items[..n]) * a == Versions(items[..n]) * b;
      KeptSame(items[..n], a, b);
    }
  }

  lemma CurrentStep(items: seq<Item>, manifest: Manifest, at: int, i: nat)
    requires i < |items| && AllListed(items[..i + 1], manifest)
    ensures AllListed(items[..i], manifest)
    ensures Kept(items[..i + 1], ActiveAmong(manifest, Versions(items[..i + 1]), at)) ==
            Kept(items[..i], ActiveAmong(manifest, Versions(items[..i]), at))
            + if Active(manifest[items[i].version], at) then [items[i]] else []
  {
    assert items[..i + 1] == items[..i] + [items[i]];
    assert items[..i + 1][..i] == items[..i];
    VersionsSnoc(items[..i], items[i]);
    KeptSame(items[..i], ActiveAmong(manifest, Versions(items[..i]), at),
             ActiveAmong(manifest, Versions(items[..i + 1]), at));
  }

  method KeepVersions(items: seq<Item>, keep: set<Version>) returns (kept: seq<Item>)
    ensures kept == Kept(items, keep)
  {
    kept := [];
    for i := 0 to |items|
      invariant kept == Kept(items[..i], keep)
    {
      assert items[..i + 1][..i] == items[..i];
      if items[i].version in keep {
        kept := kept + [items[i]];
      }
    }
    assert items[..|items|] == items;
  }

  /** No two versions of one document pass the filter. */
  lemma OneVersionPerDocument(manifest: Manifest, versions: set<Version>, v: Version, w: Version)
    requires Started(manifest, versions)
    requires v in AllLatest(manifest, versions) && w in AllLatest(manifest, versions)
    requires manifest[v].artifact == manifest[w].artifact
    ensures v == w
  {
  }
}
