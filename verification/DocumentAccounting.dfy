/** Document-identity token accounting of cached and retrieved contexts (src/karc/bench/e5_killgate.py). */
module DocumentAccounting {
  import opened Collections
  import Belady
  import ReuseSchedule

  type Version = Belady.Version
  type Sizes = map<Version, nat>

  datatype Session = Session(id: string)

  datatype TaskId = TaskId(id: string)

  datatype Task = Task(session: Session, id: TaskId, at: int, required: set<Version>)

  /** A task with the context it was served: a resident set, or the versions of a retrieval plan. */
  datatype Entry = Entry(task: Task, context: set<Version>) {
    predicate Sufficient() {
      task.required <= context
    }
  }

  datatype Plan = Plan(versions: set<Version>, tokens: nat)

  // ----- token totals of version sets -----

  /** The tokens of the listed versions of a set. */
  ghost function Size(sizes: Sizes, s: set<Version>): nat {
    Belady.Tokens(sizes, s * sizes.Keys)
  }

  lemma {:induction false} SizeUnion(sizes: Sizes, a: set<Version>, b: set<Version>)
    ensures Size(sizes, a + b) == Size(sizes, a) + Size(sizes, b - a)
    decreases |b - a|
  {
    if x :| x in b - a {
      assert (b - {x}) - a == (b - a) - {x};
      SizeUnion(sizes, a, b - {x});
      assert a + (b - {x}) == (a + b) - {x};
      SizeWithout(sizes, a + b, x);
      SizeWithout(sizes, b - a, x);
    } else {
      assert a + b == a;
      assert b - a == {};
    }
  }

  lemma SizeWithout(sizes: Sizes, s: set<Version>, x: Version)
    requires x in s
    ensures Size(sizes, s) == Size(sizes, s - {x}) + if x in sizes then sizes[x] else 0
  {
    if x in sizes {
      Belady.TokensWithout(sizes, s * sizes.Keys, x);
      assert s * sizes.Keys - {x} == (s - {x}) * sizes.Keys;
    } else {
      assert s * sizes.Keys == (s - {x}) * sizes.Keys;
    }
  }

  lemma SizeMonotone(sizes: Sizes, a: set<Version>, b: set<Version>)
    requires a <= b
    ensures Size(sizes, a) <= Size(sizes, b)
  {
    SizeUnion(sizes, a, b);
    assert a + b == b;
  }

  method TokensOf(sizes: Sizes, s: set<Version>) returns (total: nat)
    requires s <= sizes.Keys
    ensures total == Size(sizes, s)
  {
    assert s * sizes.Keys == s;
    total := Belady.TokenTotal(sizes, s);
  }

  // ----- sessions -----

  /** The sessions in order of first appearance. */
  function Sessions(es: seq<Entry>): seq<Session> {
    if es == [] then []
    else
      var n := |es| - 1;
      var before := Sessions(es[..n]);
      if es[n].task.session in before then before else before + [es[n].task.session]
  }

  function Of(es: seq<Entry>, sid: Session): seq<Entry> {
    if es == [] then []
    else
      var n := |es| - 1;
      Of(es[..n], sid) + if es[n].task.session == sid then [es[n]] else []
  }

  lemma {:induction false} SessionsDistinct(es: seq<Entry>)
    ensures NoDup(Sessions(es))
  {
    if es != [] {
      SessionsDistinct(es[..|es| - 1]);
    }
  }

  lemma {:induction false} SessionsHold(es: seq<Entry>, sid: Session)
    ensures sid in Sessions(es) <==> Of(es, sid) != []
  {
    if es != [] {
      SessionsHold(es[..|es| - 1], sid);
    }
  }

  /** Distinct sessions, each with at least one task, and every task in one of them. */
  lemma SessionsFacts(es: seq<Entry>)
    ensures NoDup(Sessions(es))
    ensures forall i :: 0 <= i < |es| ==> es[i].task.session in Sessions(es)
    ensures forall sid :: sid in Sessions(es) <==> Of(es, sid) != []
  {
    SessionsDistinct(es);
    forall sid
      ensures sid in Sessions(es) <==> Of(es, sid) != []
    {
      SessionsHold(es, sid);
    }
    forall i | 0 <= i < |es|
      ensures es[i].task.session in Sessions(es)
    {
      OfElements(es, es[i].task.session);
      assert es[i] in Of(es, es[i].task.session);
    }
  }

  lemma {:induction false} OfElements(es: seq<Entry>, sid: Session)
    ensures forall e :: e in Of(es, sid) <==> e in es && e.task.session == sid
  {
    if es != [] {
      var n := |es| - 1;
      OfElements(es[..n], sid);
      assert es == es[..n] + [es[n]];
    }
  }

  function Total(es: seq<Entry>, f: Entry -> nat): nat {
    if es == [] then 0 else Total(es[..|es| - 1], f) + f(es[|es| - 1])
  }

  function SessionSum(es: seq<Entry>, f: Entry -> nat, sids: seq<Session>): nat {
    if sids == [] then 0
    else SessionSum(es, f, sids[..|sids| - 1]) + Total(Of(es, sids[|sids| - 1]), f)
  }

  lemma TotalOfSnoc(es: seq<Entry>, f: Entry -> nat, sid: Session)
    requires es != []
    ensures var n := |es| - 1;
      Total(Of(es, sid), f) == Total(Of(es[..n], sid), f) + if es[n].task.session == sid then f(es[n]) else 0
  {
    var n := |es| - 1;
    var before := Of(es[..n], sid);
    if es[n].task.session == sid {
      assert Of(es, sid)[..|before|] == before;
    } else {
      assert Of(es, sid) == before;
    }
  }

  lemma {:induction false} OneMoreEntry(es: seq<Entry>, f: Entry -> nat, sids: seq<Session>)
    requires es != [] && NoDup(sids)
    ensures var n := |es| - 1;
      SessionSum(es, f, sids) == SessionSum(es[..n], f, sids) + if es[n].task.session in sids then f(es[n]) else 0
  {
    if sids != [] {
      var n, m := |es| - 1, |sids| - 1;
      OneMoreEntry(es, f, sids[..m]);
      TotalOfSnoc(es, f, sids[m]);
    }
  }

  /** Every task is charged in exactly one session. */
  lemma {:induction false} SessionsPartition(es: seq<Entry>, f: Entry -> nat)
    ensures SessionSum(es, f, Sessions(es)) == Total(es, f)
  {
    if es != [] {
      var n := |es| - 1;
      var before, s := Sessions(es[..n]), es[n].task.session;
      SessionsPartition(es[..n], f);
      SessionsFacts(es);
      SessionsFacts(es[..n]);
      OneMoreEntry(es, f, Sessions(es));
      if s !in before {
        assert Sessions(es)[..|before|] == before;
        assert Total(Of(es[..n], s), f) == 0;
      }
    }
  }

  // ----- the documents a session has seen -----

  function UnionOf(es: seq<Entry>, c: Entry -> set<Version>): set<Version> {
    if es == [] then {} else UnionOf(es[..|es| - 1], c) + c(es[|es| - 1])
  }

  ghost function FreshSum(sizes: Sizes, es: seq<Entry>, c: Entry -> set<Version>, sids: seq<Session>): nat {
    if sids == [] then 0
    else FreshSum(sizes, es, c, sids[..|sids| - 1]) + Size(sizes, UnionOf(Of(es, sids[|sids| - 1]), c))
  }

  function Context(): Entry -> set<Version> {
    (e: Entry) => e.context
  }

  /** The context with the required versions added on a miss. */
  function GoldContext(): Entry -> set<Version> {
    (e: Entry) => if e.Sufficient() then e.context else e.context + e.task.required
  }

  ghost function ContextSize(sizes: Sizes): Entry -> nat {
    (e: Entry) => Size(sizes, e.context)
  }

  function MissTokens(plans: map<TaskId, Plan>): Entry -> nat {
    (e: Entry) => if !e.Sufficient() && e.task.id in plans then plans[e.task.id].tokens else 0
  }

  function Miss(): Entry -> nat {
    (e: Entry) => if e.Sufficient() then 0 else 1
  }

  function Contained(): Entry -> nat {
    (e: Entry) => if e.Sufficient() then 1 else 0
  }

  function StaleVersions(manifest: ReuseSchedule.Manifest, at: int): set<Version> {
    set v | v in manifest && manifest[v].supersededAt.Some? && manifest[v].supersededAt.value <= at
  }

  function Stale(manifest: ReuseSchedule.Manifest): Entry -> nat {
    (e: Entry) => if e.context * StaleVersions(manifest, e.task.at) != {} then 1 else 0
  }

  /** Seeing a document again costs nothing: the union never exceeds the sum of the contexts. */
  lemma {:induction false} UnionWithinSum(sizes: Sizes, es: seq<Entry>)
    ensures Size(sizes, UnionOf(es, Context())) <= Total(es, ContextSize(sizes))
  {
    if es == [] {
      assert {} * sizes.Keys == {};
    } else {
      var n := |es| - 1;
      UnionWithinSum(sizes, es[..n]);
      SizeUnion(sizes, UnionOf(es[..n], Context()), es[n].context);
      SizeMonotone(sizes, es[n].context - UnionOf(es[..n], Context()), es[n].context);
    }
  }

  lemma {:induction false} FreshWithinGross(sizes: Sizes, es: seq<Entry>, sids: seq<Session>)
    ensures FreshSum(sizes, es, Context(), sids) <= SessionSum(es, ContextSize(sizes), sids)
  {
    if sids != [] {
      FreshWithinGross(sizes, es, sids[..|sids| - 1]);
      UnionWithinSum(sizes, Of(es, sids[|sids| - 1]));
    }
  }

  // ----- gold only against whole plans -----

  /** The plan of a miss charges at least the gold that was missing. */
  ghost predicate GoldCovered(sizes: Sizes, plans: map<TaskId, Plan>, e: Entry) {
    !e.Sufficient() ==> e.task.id in plans && plans[e.task.id].tokens >= Size(sizes, e.task.required)
  }

  /** A plan that contains the gold and charges what its versions weigh covers it. */
  lemma PlanWithGoldCovers(sizes: Sizes, plans: map<TaskId, Plan>, e: Entry)
    requires !e.Sufficient() ==>
      e.task.id in plans && e.task.required <= plans[e.task.id].versions <= sizes.Keys
      && plans[e.task.id].tokens == Belady.Tokens(sizes, plans[e.task.id].versions)
    ensures GoldCovered(sizes, plans, e)
  {
    if !e.Sufficient() {
      var plan := plans[e.task.id];
      assert plan.versions * sizes.Keys == plan.versions;
      SizeMonotone(sizes, e.task.required, plan.versions);
    }
  }

  lemma {:induction false} GoldUnion(sizes: Sizes, plans: map<TaskId, Plan>, es: seq<Entry>)
    requires forall i :: 0 <= i < |es| ==> GoldCovered(sizes, plans, es[i])
    ensures UnionOf(es, Context()) <= UnionOf(es, GoldContext())
    ensures Size(sizes, UnionOf(es, GoldContext())) <=
            Size(sizes, UnionOf(es, Context())) + Total(es, MissTokens(plans))
  {
    if es != [] {
      var n, e := |es| - 1, es[|es| - 1];
      GoldUnion(sizes, plans, es[..n]);
      GoldStep(sizes, UnionOf(es[..n], GoldContext()), UnionOf(es[..n], Context()), e);
      assert GoldCovered(sizes, plans, e);
    }
  }

  /** One more context g + r on top of seen gold costs no more than the context alone on top of less, plus all of r. */
  lemma GoldStep(sizes: Sizes, gold: set<Version>, seen: set<Version>, e: Entry)
    requires seen <= gold
    ensures Size(sizes, gold + GoldContext()(e)) - Size(sizes, gold) <=
            Size(sizes, seen + e.context) - Size(sizes, seen)
            + if e.Sufficient() then 0 else Size(sizes, e.task.required)
  {
    SizeUnion(sizes, gold, e.context);
    SizeUnion(sizes, seen, e.context);
    SizeMonotone(sizes, e.context - gold, e.context - seen);
    if !e.Sufficient() {
      assert gold + GoldContext()(e) == (gold + e.context) + e.task.required;
      SizeUnion(sizes, gold + e.context, e.task.required);
      SizeMonotone(sizes, e.task.required - (gold + e.context), e.task.required);
    }
  }

  /** With covered misses the gold-only bracket stays below resident fresh tokens plus charged plans. */
  lemma {:induction false} GoldBracket(sizes: Sizes, plans: map<TaskId, Plan>, es: seq<Entry>, sids: seq<Session>)
    requires forall e :: e in es ==> GoldCovered(sizes, plans, e)
    ensures FreshSum(sizes, es, GoldContext(), sids) <=
            FreshSum(sizes, es, Context(), sids) + SessionSum(es, MissTokens(plans), sids)
  {
    if sids != [] {
      var sid := sids[|sids| - 1];
      GoldBracket(sizes, plans, es, sids[..|sids| - 1]);
      OfElements(es, sid);
      GoldUnion(sizes, plans, Of(es, sid));
    }
  }

  // ----- the cache family -----

  datatype Totals = Totals(init: nat, seen: nat, miss: nat, gold: nat, gross: nat, misses: nat, contained: nat,
                           stale: nat) {
    function Plus(t: Totals): Totals {
      Totals(init + t.init, seen + t.seen, miss + t.miss, gold + t.gold, gross + t.gross, misses + t.misses,
             contained + t.contained, stale + t.stale)
    }
  }

  /** Every version that the account weighs is listed, and every task has a plan. */
  predicate EntryListed(sizes: Sizes, plans: map<TaskId, Plan>, e: Entry) {
    && e.task.id in plans
    && e.context <= sizes.Keys
    && (!e.Sufficient() ==> e.task.required <= sizes.Keys)
  }

  ghost predicate AllListed(sizes: Sizes, plans: map<TaskId, Plan>, es: seq<Entry>) {
    forall e :: e in es ==> EntryListed(sizes, plans, e)
  }

  /** One session: the initial resident set, then every task's, with each document fresh only once. */
  ghost function SessionTotals(sizes: Sizes, manifest: ReuseSchedule.Manifest, plans: map<TaskId, Plan>,
                               es: seq<Entry>): Totals
    requires es != []
  {
    var init := Size(sizes, es[0].context);
    Totals(init, Size(sizes, UnionOf(es, Context())), Total(es, MissTokens(plans)),
           Size(sizes, UnionOf(es, GoldContext())),
           init + Total(es, ContextSize(sizes)), Total(es, Miss()), Total(es, Contained()), Total(es, Stale(manifest)))
  }

  lemma {:induction false} FirstInUnion(es: seq<Entry>, c: Entry -> set<Version>)
    requires es != []
    ensures c(es[0]) <= UnionOf(es, c)
  {
    if |es| > 1 {
      FirstInUnion(es[..|es| - 1], c);
    }
  }

  /** The variables of the task loop after the first i tasks of a session. */
  ghost predicate InSession(sizes: Sizes, manifest: ReuseSchedule.Manifest, plans: map<TaskId, Plan>, es: seq<Entry>,
                            i: nat, resident: set<Version>, gold: set<Version>, t: Totals)
    requires es != [] && i <= |es|
  {
    var initial, done := es[0].context, es[..i];
    && resident == initial + UnionOf(done, Context())
    && gold == initial + UnionOf(done, GoldContext())
    && t == Totals(Size(sizes, initial), Size(sizes, resident), Total(done, MissTokens(plans)), Size(sizes, gold),
                   Size(sizes, initial) + Total(done, ContextSize(sizes)), Total(done, Miss()),
                   Total(done, Contained()),
                   Total(done, Stale(manifest)))
  }

  lemma SessionStep(sizes: Sizes, manifest: ReuseSchedule.Manifest, plans: map<TaskId, Plan>, es: seq<Entry>,
                    i: nat, resident: set<Version>, gold: set<Version>, t: Totals)
    requires i < |es| && InSession(sizes, manifest, plans, es, i, resident, gold, t)
    ensures var e := es[i];
      var more := Totals(0, Size(sizes, e.context - resident), MissTokens(plans)(e),
                         Size(sizes, GoldContext()(e) - gold),
                         Size(sizes, e.context), Miss()(e), Contained()(e), Stale(manifest)(e));
      InSession(sizes, manifest, plans, es, i + 1, resident + e.context, gold + GoldContext()(e), t.Plus(more))
  {
    var e := es[i];
    assert es[..i + 1][..i] == es[..i];
    SizeUnion(sizes, resident, e.context);
    SizeUnion(sizes, gold, GoldContext()(e));
  }

  lemma SessionEnds(sizes: Sizes, manifest: ReuseSchedule.Manifest, plans: map<TaskId, Plan>, es: seq<Entry>,
                    resident: set<Version>, gold: set<Version>, t: Totals)
    requires es != [] && InSession(sizes, manifest, plans, es, |es|, resident, gold, t)
    ensures t == SessionTotals(sizes, manifest, plans, es)
  {
    assert es[..|es|] == es;
    FirstInUnion(es, Context());
    FirstInUnion(es, GoldContext());
    assert es[0].context <= GoldContext()(es[0]);
    assert resident == UnionOf(es, Context());
    assert gold == UnionOf(es, GoldContext());
  }

  /** One task: what the resident set and the gold context add, and the whole plan on a miss. */
  method CacheTask(sizes: Sizes, manifest: ReuseSchedule.Manifest, plans: map<TaskId, Plan>, ghost es: seq<Entry>,
                   ghost i: nat, e: Entry, seenResident: set<Version>, seenGold: set<Version>, t: Totals)
    returns (seenResident': set<Version>, seenGold': set<Version>, t': Totals)
    requires i < |es| && es[i] == e && EntryListed(sizes, plans, e)
    requires InSession(sizes, manifest, plans, es, i, seenResident, seenGold, t)
    ensures InSession(sizes, manifest, plans, es, i + 1, seenResident', seenGold', t')
  {
    var miss := !e.Sufficient();
    var goldContext := e.context + if miss then e.task.required else {};
    assert goldContext == GoldContext()(e);
    var residentNew := TokensOf(sizes, e.context - seenResident);
    var goldNew := TokensOf(sizes, goldContext - seenGold);
    var residentTokens := TokensOf(sizes, e.context);
    var planTokens := if miss then plans[e.task.id].tokens else 0;
    var stale := e.context * StaleVersions(manifest, e.task.at) != {};
    SessionStep(sizes, manifest, plans, es, i, seenResident, seenGold, t);
    t' := t.Plus(Totals(0, residentNew, planTokens, goldNew, residentTokens, if miss then 1 else 0,
                        if miss then 0 else 1, if stale then 1 else 0));
    seenResident', seenGold' := seenResident + e.context, seenGold + goldContext;
  }

  lemma SessionStarts(sizes: Sizes, manifest: ReuseSchedule.Manifest, plans: map<TaskId, Plan>, es: seq<Entry>)
    requires es != []
    ensures var init := Size(sizes, es[0].context);
      InSession(sizes, manifest, plans, es, 0, es[0].context, es[0].context, Totals(init, init, 0, init, init, 0, 0, 0))
  {
    assert es[..0] == [];
  }

  /** The task loop of one session; None stands for a KeyError. */
  method CacheSession(sizes: Sizes, manifest: ReuseSchedule.Manifest, plans: map<TaskId, Plan>, es: seq<Entry>)
    returns (r: Option<Totals>)
    requires es != []
    ensures r.None? <==> !AllListed(sizes, plans, es)
    ensures r.Some? ==> r.value == SessionTotals(sizes, manifest, plans, es)
  {
    var initial := es[0].context;
    if !(initial <= sizes.Keys) {
      assert !EntryListed(sizes, plans, es[0]);
      return None;
    }
    var seenResident, seenGold := initial, initial;
    var tokens := TokensOf(sizes, initial);
    var t := Totals(tokens, tokens, 0, tokens, tokens, 0, 0, 0);
    SessionStarts(sizes, manifest, plans, es);
    for i := 0 to |es|
      invariant forall j :: 0 <= j < i ==> EntryListed(sizes, plans, es[j])
      invariant InSession(sizes, manifest, plans, es, i, seenResident, seenGold, t)
    {
      if !EntryListed(sizes, plans, es[i]) {
        return None;
      }
      seenResident, seenGold, t := CacheTask(sizes, manifest, plans, es, i, es[i], seenResident, seenGold, t);
    }
    SessionEnds(sizes, manifest, plans, es, seenResident, seenGold, t);
    r := Some(t);
  }

  /** The initial resident set of every session is charged once on its own. */
  ghost function InitSum(sizes: Sizes, es: seq<Entry>, sids: seq<Session>): nat {
    if sids == [] then 0
    else
      var n := |sids| - 1;
      InitSum(sizes, es, sids[..n]) + if Of(es, sids[n]) == [] then 0 else Size(sizes, Of(es, sids[n])[0].context)
  }

  /** The totals of some sessions, field by field. */
  ghost predicate TotalsOf(sizes: Sizes, manifest: ReuseSchedule.Manifest, plans: map<TaskId, Plan>, es: seq<Entry>,
                           sids: seq<Session>, t: Totals) {
    && t.init == InitSum(sizes, es, sids)
    && t.seen == FreshSum(sizes, es, Context(), sids)
    && t.gold == FreshSum(sizes, es, GoldContext(), sids)
    && t.miss == SessionSum(es, MissTokens(plans), sids)
    && t.gross == t.init + SessionSum(es, ContextSize(sizes), sids)
    && t.misses == SessionSum(es, Miss(), sids)
    && t.contained == SessionSum(es, Contained(), sids)
    && t.stale == SessionSum(es, Stale(manifest), sids)
  }

  lemma TotalsMore(sizes: Sizes, manifest: ReuseSchedule.Manifest, plans: map<TaskId, Plan>, es: seq<Entry>,
                   sids: seq<Session>, k: nat, t: Totals)
    requires k < |sids| && TotalsOf(sizes, manifest, plans, es, sids[..k], t) && Of(es, sids[k]) != []
    ensures TotalsOf(sizes, manifest, plans, es, sids[..k + 1],
                     t.Plus(SessionTotals(sizes, manifest, plans, Of(es, sids[k]))))
  {
    assert sids[..k + 1][..k] == sids[..k];
  }

  function Zipped(tasks: seq<Task>, contexts: seq<set<Version>>): (r: seq<Entry>)
    ensures |r| == if |tasks| < |contexts| then |tasks| else |contexts|
    ensures forall i :: 0 <= i < |r| ==> r[i] == Entry(tasks[i], contexts[i])
  {
    var n := if |tasks| < |contexts| then |tasks| else |contexts|;
    seq(n, i requires 0 <= i < n => Entry(tasks[i], contexts[i]))
  }

  datatype CacheReport = CacheReport(totals: Totals, primary: nat, w0: real, w01: real, w1: real)

  datatype CacheOutcome = CacheAccounted(report: CacheReport) | CacheKeyError | CacheDivisionByZero

  /** The token totals of the whole batch. */
  ghost predicate BatchTotals(sizes: Sizes, manifest: ReuseSchedule.Manifest, plans: map<TaskId, Plan>, es: seq<Entry>,
                              t: Totals) {
    && t.init == InitSum(sizes, es, Sessions(es))
    && t.seen == FreshSum(sizes, es, Context(), Sessions(es))
    && t.gold == FreshSum(sizes, es, GoldContext(), Sessions(es))
    && t.miss == Total(es, MissTokens(plans))
    && t.gross == t.init + Total(es, ContextSize(sizes))
    && t.misses == Total(es, Miss()) && t.contained == Total(es, Contained()) && t.misses + t.contained == |es|
    && t.stale == Total(es, Stale(manifest))
  }

  /** The amortised costs at the three cache weights. */
  ghost predicate Amortized(n: nat, r: CacheReport)
    requires n > 0
  {
    && r.primary == r.totals.seen + r.totals.miss
    && r.w0 == r.primary as real / n as real && r.w1 == (r.totals.gross + r.totals.miss) as real / n as real
    && r.w01 == 0.9 * r.w0 + 0.1 * r.w1
    && r.w0 <= r.w01 <= r.w1
  }

  lemma {:induction false} MissesAndContained(es: seq<Entry>)
    ensures Total(es, Miss()) + Total(es, Contained()) == |es|
  {
    if es != [] {
      MissesAndContained(es[..|es| - 1]);
    }
  }

  lemma AllSessionsTotal(sizes: Sizes, manifest: ReuseSchedule.Manifest, plans: map<TaskId, Plan>, es: seq<Entry>,
                         t: Totals)
    requires TotalsOf(sizes, manifest, plans, es, Sessions(es), t)
    ensures BatchTotals(sizes, manifest, plans, es, t)
    ensures t.seen <= t.gross
  {
    SessionsPartition(es, MissTokens(plans));
    SessionsPartition(es, ContextSize(sizes));
    SessionsPartition(es, Miss());
    SessionsPartition(es, Contained());
    SessionsPartition(es, Stale(manifest));
    MissesAndContained(es);
    FreshWithinGross(sizes, es, Sessions(es));
  }

  /** With covered misses the gold-only bracket never exceeds the primary total. */
  lemma GoldWithinPrimary(sizes: Sizes, manifest: ReuseSchedule.Manifest, plans: map<TaskId, Plan>, es: seq<Entry>,
                          t: Totals)
    requires BatchTotals(sizes, manifest, plans, es, t)
    requires forall e :: e in es ==> GoldCovered(sizes, plans, e)
    ensures t.gold <= t.seen + t.miss
  {
    GoldBracket(sizes, plans, es, Sessions(es));
    SessionsPartition(es, MissTokens(plans));
  }

  // ----- when the gold-only figure is a bracket -----

  /** The gold-only total does not exceed resident fresh tokens plus charged plans. */
  ghost predicate Bracketed(sizes: Sizes, plans: map<TaskId, Plan>, es: seq<Entry>) {
    FreshSum(sizes, es, GoldContext(), Sessions(es)) <=
    FreshSum(sizes, es, Context(), Sessions(es)) + Total(es, MissTokens(plans))
  }

  /** An account that raises nothing and whose tasks require the gold of their ids. */
  ghost predicate Requiring(sizes: Sizes, plans: map<TaskId, Plan>, gold: map<TaskId, set<Version>>, es: seq<Entry>) {
    AllListed(sizes, plans, es) && forall e :: e in es ==> e.task.id in gold && e.task.required == gold[e.task.id]
  }

  ghost predicate AlwaysBracketed(sizes: Sizes, plans: map<TaskId, Plan>, gold: map<TaskId, set<Version>>) {
    forall es :: Requiring(sizes, plans, gold, es) ==> Bracketed(sizes, plans, es)
  }

  lemma SingleSession(e: Entry)
    ensures Sessions([e]) == [e.task.session] && Of([e], e.task.session) == [e]
  {
    assert [e][..0] == [];
  }

  lemma SingleFresh(sizes: Sizes, e: Entry, c: Entry -> set<Version>)
    ensures FreshSum(sizes, [e], c, Sessions([e])) == Size(sizes, c(e))
  {
    SingleSession(e);
    assert [e][..0] == [] && [e.task.session][..0] == [];
    assert UnionOf([e], c) == UnionOf([], c) + c(e);
    assert UnionOf([e], c) == c(e);
    assert FreshSum(sizes, [e], c, []) == 0;
  }

  lemma SingleMiss(plans: map<TaskId, Plan>, e: Entry)
    ensures Total([e], MissTokens(plans)) == MissTokens(plans)(e)
  {
    assert [e][..0] == [];
  }

  /** Any plan that charges less than the gold it stands for lets the bracket exceed the primary total. */
  lemma UncoveredGoldExceeds(sizes: Sizes, plans: map<TaskId, Plan>, sid: Session, id: TaskId, gold: set<Version>)
    requires id in plans && gold <= sizes.Keys && plans[id].tokens < Size(sizes, gold)
    ensures var es := [Entry(Task(sid, id, 1, gold), {})];
      AllListed(sizes, plans, es) && !Bracketed(sizes, plans, es)
  {
    var e := Entry(Task(sid, id, 1, gold), {});
    SingleFresh(sizes, e, Context());
    SingleFresh(sizes, e, GoldContext());
    SingleMiss(plans, e);
    assert {} * sizes.Keys == {};
    assert e.Sufficient() ==> gold == {};
    assert {} + gold == gold;
  }

  /** The gold-only figure is a bracket on every account exactly if no plan charges less than the gold of its task. */
  lemma BracketedIffCharged(sizes: Sizes, plans: map<TaskId, Plan>, gold: map<TaskId, set<Version>>)
    ensures AlwaysBracketed(sizes, plans, gold) <==>
            forall id :: id in gold && id in plans && gold[id] <= sizes.Keys ==>
              plans[id].tokens >= Size(sizes, gold[id])
  {
    if id :| id in gold && id in plans && gold[id] <= sizes.Keys && plans[id].tokens < Size(sizes, gold[id]) {
      var sid := Session("s");
      UncoveredGoldExceeds(sizes, plans, sid, id, gold[id]);
      assert Requiring(sizes, plans, gold, [Entry(Task(sid, id, 1, gold[id]), {})]);
    } else {
      forall es | Requiring(sizes, plans, gold, es)
        ensures Bracketed(sizes, plans, es)
      {
        assert forall e :: e in es ==> EntryListed(sizes, plans, e) && GoldCovered(sizes, plans, e);
        GoldBracket(sizes, plans, es, Sessions(es));
        SessionsPartition(es, MissTokens(plans));
      }
    }
  }

  /** The weighted mean of two totals lies between them. */
  lemma Weighted(low: nat, high: nat, n: nat) returns (w0: real, w01: real, w1: real)
    requires low <= high && n > 0
    ensures w0 == low as real / n as real && w1 == high as real / n as real
    ensures w01 == (low as real + 0.1 * (high as real - low as real)) / n as real
    ensures w01 == 0.9 * w0 + 0.1 * w1
    ensures w0 <= w01 <= w1
  {
    var l, h, d := low as real, high as real, n as real;
    w0, w01, w1 := l / d, (l + 0.1 * (h - l)) / d, h / d;
    assert w0 * d == l && w1 * d == h;
    assert (0.9 * w0 + 0.1 * w1) * d == l + 0.1 * (h - l);
    assert (w1 - w0) * d >= 0.0;
  }

  /** The loop over the sessions. */
  method CacheSessions(sizes: Sizes, manifest: ReuseSchedule.Manifest, plans: map<TaskId, Plan>, es: seq<Entry>)
    returns (r: Option<Totals>)
    ensures r.None? <==> !AllListed(sizes, plans, es)
    ensures r.Some? ==> TotalsOf(sizes, manifest, plans, es, Sessions(es), r.value)
  {
    var sids := Sessions(es);
    SessionsFacts(es);
    var t := Totals(0, 0, 0, 0, 0, 0, 0, 0);
    assert sids[..0] == [];
    for k := 0 to |sids|
      invariant forall j :: 0 <= j < k ==> AllListed(sizes, plans, Of(es, sids[j]))
      invariant TotalsOf(sizes, manifest, plans, es, sids[..k], t)
    {
      assert sids[k] in sids;
      var more := CacheSession(sizes, manifest, plans, Of(es, sids[k]));
      if more.None? {
        OfElements(es, sids[k]);
        return None;
      }
      TotalsMore(sizes, manifest, plans, es, sids, k, t);
      t := t.Plus(more.value);
    }
    EverySession(sizes, plans, es);
    assert sids[..|sids|] == sids;
    r := Some(t);
  }

  /** The closing arithmetic: primary tokens and the amortised costs at the three cache weights. */
  method ReportOf(t: Totals, n: nat) returns (r: CacheReport)
    requires n > 0 && t.seen <= t.gross
    ensures r.totals == t && Amortized(n, r)
  {
    var primary, gross, tasks := t.seen + t.miss, t.gross + t.miss, n as real;
    ghost var w0, w01, w1 := Weighted(primary, gross, n);
    r := CacheReport(t, primary, primary as real / tasks,
                     (t.miss as real + t.seen as real + 0.1 * (t.gross as real - t.seen as real)) / tasks,
                     gross as real / tasks);
  }

  /**
   * _cache_account: resident fresh tokens are, session by session, the size of the union of all resident sets; misses
   * charge whole plans; the three amortised costs are ordered.
   */
  method CacheAccount(tasks: seq<Task>, rows: seq<set<Version>>, plans: map<TaskId, Plan>, sizes: Sizes,
                      manifest: ReuseSchedule.Manifest)
    returns (r: CacheOutcome)
    ensures r.CacheKeyError? <==> !AllListed(sizes, plans, Zipped(tasks, rows))
    ensures r.CacheDivisionByZero? <==> tasks == []
    ensures r.CacheAccounted? ==>
      BatchTotals(sizes, manifest, plans, Zipped(tasks, rows), r.report.totals) && Amortized(|tasks|, r.report)
  {
    var es := Zipped(tasks, rows);
    var t := CacheSessions(sizes, manifest, plans, es);
    if t.None? {
      return CacheKeyError;
    }
    if |tasks| == 0 {
      return CacheDivisionByZero;
    }
    AllSessionsTotal(sizes, manifest, plans, es, t.value);
    var report := ReportOf(t.value, |tasks|);
    r := CacheAccounted(report);
  }

  lemma EverySession(sizes: Sizes, plans: map<TaskId, Plan>, es: seq<Entry>)
    requires forall j :: 0 <= j < |Sessions(es)| ==> AllListed(sizes, plans, Of(es, Sessions(es)[j]))
    ensures AllListed(sizes, plans, es)
  {
    SessionsFacts(es);
    forall e | e in es
      ensures EntryListed(sizes, plans, e)
    {
      var i :| 0 <= i < |es| && es[i] == e;
      var j :| 0 <= j < |Sessions(es)| && Sessions(es)[j] == e.task.session;
      OfElements(es, Sessions(es)[j]);
    }
  }

  // ----- the retrieval family -----

  datatype RetrievalReport = RetrievalReport(
    primary: nat, symmetric: nat, contained: nat, stale: nat, w0: real, w01: real, w1: real)

  datatype RetrievalOutcome = RetrievalAccounted(report: RetrievalReport) | RetrievalKeyError | RetrievalDivisionByZero

  predicate Servable(sizes: Sizes, plans: map<TaskId, Plan>, e: Entry) {
    e.task.id in plans && e.context <= sizes.Keys
  }

  /** Every task has a plan, and every planned version is listed. */
  ghost predicate AllServable(sizes: Sizes, plans: map<TaskId, Plan>, es: seq<Entry>) {
    forall e :: e in es ==> Servable(sizes, plans, e)
  }

  /** Each task with its plan's versions as context; a task without a plan has none. */
  function Served(tasks: seq<Task>, plans: map<TaskId, Plan>): (r: seq<Entry>)
    ensures |r| == |tasks|
    ensures forall i :: 0 <= i < |r| ==>
      r[i] == Entry(tasks[i], if tasks[i].id in plans then plans[tasks[i].id].versions else {})
  {
    seq(|tasks|, i requires 0 <= i < |tasks| =>
      Entry(tasks[i], if tasks[i].id in plans then plans[tasks[i].id].versions else {}))
  }

  datatype Running = Running(primary: nat, symmetric: nat, contained: nat, stale: nat)

  ghost predicate RunningOf(sizes: Sizes, manifest: ReuseSchedule.Manifest, es: seq<Entry>, sids: seq<Session>,
                            t: Running) {
    && t.primary == SessionSum(es, ContextSize(sizes), sids)
    && t.symmetric == FreshSum(sizes, es, Context(), sids)
    && t.contained == SessionSum(es, Contained(), sids)
    && t.stale == SessionSum(es, Stale(manifest), sids)
  }

  /** The running totals after i tasks of a session that follows the sessions behind t0. */
  ghost predicate InRetrieval(sizes: Sizes, manifest: ReuseSchedule.Manifest, es: seq<Entry>, i: nat,
                              seen: set<Version>, t0: Running, t: Running)
    requires i <= |es|
  {
    var done := es[..i];
    && seen == UnionOf(done, Context())
    && t == Running(t0.primary + Total(done, ContextSize(sizes)), t0.symmetric + Size(sizes, seen),
                    t0.contained + Total(done, Contained()), t0.stale + Total(done, Stale(manifest)))
  }

  lemma RetrievalStep(sizes: Sizes, manifest: ReuseSchedule.Manifest, es: seq<Entry>, i: nat, seen: set<Version>,
                      t0: Running, t: Running)
    requires i < |es| && InRetrieval(sizes, manifest, es, i, seen, t0, t)
    ensures var e := es[i];
      InRetrieval(sizes, manifest, es, i + 1, seen + e.context, t0,
                  Running(t.primary + Size(sizes, e.context), t.symmetric + Size(sizes, e.context - seen),
                          t.contained + Contained()(e), t.stale + Stale(manifest)(e)))
  {
    assert es[..i + 1][..i] == es[..i];
    SizeUnion(sizes, seen, es[i].context);
  }

  method RetrievalSession(sizes: Sizes, manifest: ReuseSchedule.Manifest, plans: map<TaskId, Plan>, es: seq<Entry>,
                          t0: Running)
    returns (r: Option<Running>)
    ensures r.None? <==> !AllServable(sizes, plans, es)
    ensures r.Some? ==> exists seen :: InRetrieval(sizes, manifest, es, |es|, seen, t0, r.value)
  {
    var seen, t := {}, t0;
    assert {} * sizes.Keys == {};
    for i := 0 to |es|
      invariant forall j :: 0 <= j < i ==> Servable(sizes, plans, es[j])
      invariant InRetrieval(sizes, manifest, es, i, seen, t0, t)
    {
      var e := es[i];
      if !Servable(sizes, plans, e) {
        return None;
      }
      RetrievalStep(sizes, manifest, es, i, seen, t0, t);
      var contextTokens := TokensOf(sizes, e.context);
      var freshTokens := TokensOf(sizes, e.context - seen);
      var stale := e.context * StaleVersions(manifest, e.task.at) != {};
      t := Running(t.primary + contextTokens, t.symmetric + freshTokens, t.contained + if e.Sufficient() then 1 else 0,
                   t.stale + if stale then 1 else 0);
      seen := seen + e.context;
    }
    r := Some(t);
  }

  lemma RunningMore(sizes: Sizes, manifest: ReuseSchedule.Manifest, es: seq<Entry>, sids: seq<Session>, k: nat,
                    t0: Running, t: Running)
    requires k < |sids| && RunningOf(sizes, manifest, es, sids[..k], t0)
    requires exists seen :: InRetrieval(sizes, manifest, Of(es, sids[k]), |Of(es, sids[k])|, seen, t0, t)
    ensures RunningOf(sizes, manifest, es, sids[..k + 1], t)
  {
    var session := Of(es, sids[k]);
    assert session[..|session|] == session;
    assert sids[..k + 1][..k] == sids[..k];
  }

  /** The loop over the sessions. */
  method RetrievalSessions(sizes: Sizes, manifest: ReuseSchedule.Manifest, plans: map<TaskId, Plan>, es: seq<Entry>)
    returns (r: Option<Running>)
    ensures r.None? <==> !AllServable(sizes, plans, es)
    ensures r.Some? ==> RunningOf(sizes, manifest, es, Sessions(es), r.value)
  {
    var sids := Sessions(es);
    SessionsFacts(es);
    var t := Running(0, 0, 0, 0);
    assert sids[..0] == [];
    for k := 0 to |sids|
      invariant forall j :: 0 <= j < k ==> AllServable(sizes, plans, Of(es, sids[j]))
      invariant RunningOf(sizes, manifest, es, sids[..k], t)
    {
      var more := RetrievalSession(sizes, manifest, plans, Of(es, sids[k]), t);
      if more.None? {
        OfElements(es, sids[k]);
        return None;
      }
      RunningMore(sizes, manifest, es, sids, k, t, more.value);
      t := more.value;
    }
    EverySessionServable(sizes, plans, es);
    assert sids[..|sids|] == sids;
    r := Some(t);
  }

  lemma RetrievalTotals(sizes: Sizes, manifest: ReuseSchedule.Manifest, es: seq<Entry>, t: Running)
    requires RunningOf(sizes, manifest, es, Sessions(es), t)
    ensures t.primary == Total(es, ContextSize(sizes))
    ensures t.contained == Total(es, Contained()) && t.stale == Total(es, Stale(manifest))
    ensures t.symmetric <= t.primary
  {
    SessionsPartition(es, ContextSize(sizes));
    SessionsPartition(es, Contained());
    SessionsPartition(es, Stale(manifest));
    FreshWithinGross(sizes, es, Sessions(es));
  }

  /**
   * _retrieval_account: every context is charged in full, symmetric fresh tokens are, session by session, the size of
   * the union of the contexts, and the three amortised costs are ordered.
   */
  method RetrievalAccount(tasks: seq<Task>, plans: map<TaskId, Plan>, sizes: Sizes, manifest: ReuseSchedule.Manifest)
    returns (r: RetrievalOutcome)
    ensures r.RetrievalKeyError? <==> !AllServable(sizes, plans, Served(tasks, plans))
    ensures r.RetrievalDivisionByZero? <==> tasks == []
    ensures r.RetrievalAccounted? ==>
      var es, n, a := Served(tasks, plans), |tasks|, r.report;
      && a.primary == Total(es, ContextSize(sizes))
      && a.symmetric == FreshSum(sizes, es, Context(), Sessions(es))
      && a.contained == Total(es, Contained()) && a.stale == Total(es, Stale(manifest))
      && a.w0 == a.symmetric as real / n as real && a.w1 == a.primary as real / n as real
      && a.w01 == 0.9 * a.w0 + 0.1 * a.w1
      && a.w0 <= a.w01 <= a.w1
  {
    var es := Served(tasks, plans);
    var t := RetrievalSessions(sizes, manifest, plans, es);
    if t.None? {
      return RetrievalKeyError;
    }
    if |tasks| == 0 {
      return RetrievalDivisionByZero;
    }
    RetrievalTotals(sizes, manifest, es, t.value);
    var low, high, n := t.value.symmetric, t.value.primary, |tasks| as real;
    ghost var w0, w01, w1 := Weighted(low, high, |tasks|);
    r := RetrievalAccounted(RetrievalReport(
      high, low, t.value.contained, t.value.stale,
      low as real / n, (low as real + 0.1 * (high as real - low as real)) / n, high as real / n));
  }

  lemma EverySessionServable(sizes: Sizes, plans: map<TaskId, Plan>, es: seq<Entry>)
    requires forall j :: 0 <= j < |Sessions(es)| ==> AllServable(sizes, plans, Of(es, Sessions(es)[j]))
    ensures AllServable(sizes, plans, es)
  {
    SessionsFacts(es);
    forall e | e in es
      ensures Servable(sizes, plans, e)
    {
      var i :| 0 <= i < |es| && es[i] == e;
      var j :| 0 <= j < |Sessions(es)| && Sessions(es)[j] == e.task.session;
      OfElements(es, Sessions(es)[j]);
    }
  }
}
