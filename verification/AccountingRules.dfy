/** The counts of the document accounts, read off the tasks and their contexts (e5_killgate.py). */
module AccountingRules {
  import opened Collections
  import ReuseSchedule
  import opened DocumentAccounting

  lemma {:induction false} TotalIsCount(es: seq<Entry>, f: Entry -> nat)
    requires forall e: Entry :: f(e) <= 1
    ensures Total(es, f) == |set i: nat | i < |es| && f(es[i]) == 1|
  {
    if es != [] {
      var n := |es| - 1;
      TotalIsCount(es[..n], f);
      var before := set i: nat | i < |es[..n]| && f(es[..n][i]) == 1;
      assert (set i: nat | i < |es| && f(es[i]) == 1) == before + if f(es[n]) == 1 then {n} else {};
    }
  }

  /** The tasks whose context lacks a required version. */
  function Insufficient(es: seq<Entry>): set<nat> {
    set i: nat | i < |es| && exists v :: v in es[i].task.required && v !in es[i].context
  }

  /** The context holds a version that is superseded by the time of the task. */
  ghost predicate Exposed(manifest: ReuseSchedule.Manifest, e: Entry) {
    exists v :: v in e.context && v in manifest
                && manifest[v].supersededAt.Some? && manifest[v].supersededAt.value <= e.task.at
  }

  ghost function ExposedTasks(manifest: ReuseSchedule.Manifest, es: seq<Entry>): set<nat> {
    set i: nat | i < |es| && Exposed(manifest, es[i])
  }

  /** Misses are the tasks whose context lacks a required version. */
  lemma MissesAreInsufficient(es: seq<Entry>)
    ensures Total(es, Miss()) == |Insufficient(es)|
    ensures Total(es, Contained()) == |es| - |Insufficient(es)|
  {
    TotalIsCount(es, Miss());
    assert Insufficient(es) == set i: nat | i < |es| && Miss()(es[i]) == 1;
    MissesAndContained(es);
  }

  /** Stale exposures are the tasks whose context holds a superseded version. */
  lemma StaleAreExposed(manifest: ReuseSchedule.Manifest, es: seq<Entry>)
    ensures Total(es, Stale(manifest)) == |ExposedTasks(manifest, es)|
  {
    TotalIsCount(es, Stale(manifest));
    forall e: Entry
      ensures Exposed(manifest, e) <==> Stale(manifest)(e) == 1
    {
      var stale := StaleVersions(manifest, e.task.at);
      if v :| v in e.context && v in manifest
              && manifest[v].supersededAt.Some? && manifest[v].supersededAt.value <= e.task.at {
        assert v in e.context * stale;
      }
      if v :| v in e.context * stale {
      }
    }
    assert ExposedTasks(manifest, es) == set i: nat | i < |es| && Stale(manifest)(es[i]) == 1;
  }
}
