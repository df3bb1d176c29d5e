/** What every row of the schedule requires, forbids and announces, read off the finished rows. */
module ReuseLaws {
  import opened Collections
  import opened Belady
  import opened ReuseSchedule

  /** Session k has a reuse row among the first n rows. */
  ghost predicate ReusedBefore(tasks: seq<TaskRow>, n: nat, k: nat)
    requires n <= |tasks|
  {
    exists j :: 0 <= j < n && tasks[j].session == k && tasks[j].reuse
  }

  ghost predicate FirstReuse(tasks: seq<TaskRow>, i: nat)
    requires i < |tasks|
  {
    tasks[i].reuse && !ReusedBefore(tasks, i, tasks[i].session)
  }

  /** Rows among the first n that ask for a new document: neither the opening row of a session nor a reuse row. */
  function NewBefore(tasks: seq<TaskRow>, n: nat): (r: nat)
    requires n <= |tasks|
    ensures r <= n
  {
    if n == 0 then 0
    else NewBefore(tasks, n - 1) + if !tasks[n - 1].reuse && tasks[n - 1].position != 1 then 1 else 0
  }

  /** Reuse rows of session k. */
  function RepeatsIn(tasks: seq<TaskRow>, k: nat): nat {
    if tasks == [] then 0
    else
      RepeatsIn(tasks[..|tasks| - 1], k)
      + if tasks[|tasks| - 1].session == k && tasks[|tasks| - 1].reuse then 1 else 0
  }

  /**
   * The first row of a session requires its anchor, the first reuse row supersedes that anchor, no other row forbids
   * anything, and the rows for new documents take the stable versions one after the other.
   */
  ghost predicate GoldLaw(fx: Fixture, tasks: seq<TaskRow>, i: nat)
    requires i < |tasks| && tasks[i].session < |fx.anchors|
  {
    var t, anchor, n := tasks[i], fx.anchors[tasks[i].session], NewBefore(tasks, i);
    && (t.position == 1 ==> t.required == anchor.v1 && !t.reuse)
    && (t.position != 1 && !t.reuse ==> n < |fx.stable| && t.required == fx.stable[n])
    && (FirstReuse(tasks, i) ==> t.required == anchor.v2 && t.forbidden == [anchor.v1])
    && (!FirstReuse(tasks, i) ==> t.forbidden == [])
  }

  /** A supersession is announced first; the fourth row of a session corrects what the second one required. */
  ghost predicate EventLaw(fx: Fixture, tasks: seq<TaskRow>, i: nat)
    requires i < |tasks| && tasks[i].session < |fx.anchors|
  {
    var t := tasks[i];
    && (t.position == 4 ==> i >= 2)
    && t.events == (if FirstReuse(tasks, i) then [ValidityChanged(fx.anchors[t.session].v1)] else [])
                   + (if t.position == 4 then [Corrected(tasks[i - 2].required)] else [])
    && (t.validated <==> t.position == 2)
  }

  ghost predicate RowLaw(fx: Fixture, tasks: seq<TaskRow>, i: nat)
    requires i < |tasks|
  {
    tasks[i].session < |fx.anchors| && GoldLaw(fx, tasks, i) && EventLaw(fx, tasks, i)
  }

  ghost predicate Lawful(fx: Fixture, tasks: seq<TaskRow>) {
    forall i :: 0 <= i < |tasks| ==> RowLaw(fx, tasks, i)
  }

  // ----- the builder keeps the laws -----

  /** Row i is older than session k, or it is the session's row whose required version history holds. */
  ghost predicate HistoryAt(k: nat, p: Progress, i: nat)
    requires i < |p.tasks| && |p.history| <= |p.tasks|
  {
    var t, at := p.tasks[i], i - (|p.tasks| - |p.history|);
    if at < 0 then t.session != k
    else t.session == k && t.position == at + 1 && t.required == p.history[at]
  }

  /** The rows of session k are the last ones, in order, and history holds what they require. */
  ghost predicate HistoryOk(k: nat, p: Progress) {
    |p.history| <= |p.tasks| && forall i :: 0 <= i < |p.tasks| ==> HistoryAt(k, p, i)
  }

  /** The second gold version of the session is still the current one of its artifact. */
  ghost predicate SecondIsCurrent(fx: Fixture, p: Progress) {
    |p.history| > 1 ==>
      && p.history[1] in fx.manifest && fx.ArtifactOf(p.history[1]) in p.current
      && p.current[fx.ArtifactOf(p.history[1])] == p.history[1]
  }

  ghost predicate LawOk(fx: Fixture, k: nat, p: Progress) {
    && Lawful(fx, p.tasks)
    && HistoryOk(k, p)
    && SecondIsCurrent(fx, p)
    && (p.superseded <==> ReusedBefore(p.tasks, |p.tasks|, k))
    && p.cursor == NewBefore(p.tasks, |p.tasks|)
  }

  lemma {:induction false} NewBeforeStays(tasks: seq<TaskRow>, more: seq<TaskRow>, n: nat)
    requires n <= |tasks| <= |more| && more[..|tasks|] == tasks
    ensures NewBefore(more, n) == NewBefore(tasks, n)
  {
    if n > 0 {
      NewBeforeStays(tasks, more, n - 1);
      assert more[n - 1] == tasks[n - 1];
    }
  }

  lemma ReusedStays(tasks: seq<TaskRow>, more: seq<TaskRow>, n: nat, k: nat)
    requires n <= |tasks| <= |more| && more[..|tasks|] == tasks
    ensures ReusedBefore(more, n, k) <==> ReusedBefore(tasks, n, k)
  {
    assert forall j :: 0 <= j < n ==> more[j] == tasks[j];
  }

  lemma LawStays(fx: Fixture, tasks: seq<TaskRow>, more: seq<TaskRow>, i: nat)
    requires i < |tasks| <= |more| && more[..|tasks|] == tasks
    ensures RowLaw(fx, more, i) <==> RowLaw(fx, tasks, i)
  {
    assert forall j :: 0 <= j <= i ==> more[j] == tasks[j];
    NewBeforeStays(tasks, more, i);
    ReusedStays(tasks, more, i, tasks[i].session);
  }

  lemma LawfulSnoc(fx: Fixture, tasks: seq<TaskRow>, t: TaskRow)
    requires Lawful(fx, tasks) && RowLaw(fx, tasks + [t], |tasks|)
    ensures Lawful(fx, tasks + [t])
  {
    var more := tasks + [t];
    forall i | 0 <= i < |more|
      ensures RowLaw(fx, more, i)
    {
      if i < |tasks| {
        LawStays(fx, tasks, more, i);
      }
    }
  }

  /** Until the anchor is superseded, the session's second row took a stable version. */
  lemma SecondIsStable(fx: Fixture, k: nat, p: Progress)
    requires LawOk(fx, k, p) && !p.superseded && |p.history| > 1
    ensures p.history[1] in fx.stable
  {
    var i := |p.tasks| - |p.history| + 1;
    assert RowLaw(fx, p.tasks, i) && HistoryAt(k, p, i);
  }

  /** Superseding the anchor leaves the second gold version current. */
  lemma SupersededKeepsSecond(fx: Fixture, when: map<nat, nat>, k: nat, p: Progress)
    requires BuilderOk(fx, when, k, p) && LawOk(fx, k, p) && !p.superseded
    ensures SecondIsCurrent(fx, Superseded(fx, k, p))
  {
    assert fx.AnchorListed(k);
    if |p.history| > 1 {
      SecondIsStable(fx, k, p);
      var m :| 0 <= m < |fx.stable| && fx.stable[m] == p.history[1];
      assert fx.ArtifactOf(fx.stable[m]) != fx.ArtifactOf(fx.anchors[k].v1);
    }
  }

  ghost predicate SameArtifacts(fx: Fixture, manifest: Manifest) {
    && manifest.Keys == fx.manifest.Keys
    && forall v :: v in manifest ==> manifest[v].artifact == fx.manifest[v].artifact
  }

  /** What the branches leave for the row: old artifacts, the second gold version, and nothing current that changes. */
  lemma ChosenFacts(fx: Fixture, when: map<nat, nat>, k: nat, reuse: bool, p: Progress, mid: Progress, g: Gold)
    requires BuilderOk(fx, when, k, p) && LawOk(fx, k, p) && Chosen(fx, k, reuse, p, mid, g)
    requires p.history == [] ==> p.current == map[]
    ensures mid.tasks == p.tasks && mid.history == p.history && SecondIsCurrent(fx, mid)
    ensures SameArtifacts(fx, mid.manifest)
    ensures g.required in fx.manifest
    ensures fx.ArtifactOf(g.required) in mid.current ==> mid.current[fx.ArtifactOf(g.required)] == g.required
    ensures mid.superseded == (p.superseded || (reuse && p.history != []))
    ensures mid.cursor == p.cursor + if !reuse && p.history != [] then 1 else 0
  {
    assert fx.AnchorListed(k);
    if p.history != [] && !reuse {
      NextStableIsNew(fx, when, k, p);
    } else if p.history != [] && !p.superseded {
      SupersededKeepsSecond(fx, when, k, p);
    }
  }

  lemma CorrectsSecond(fx: Fixture, p: Progress)
    requires SecondIsCurrent(fx, p) && |p.history| > 1
    requires SameArtifacts(fx, p.manifest)
    requires forall h :: h in p.history ==> h in p.manifest
    ensures CorrectionTarget(p) == p.history[1]
  {
  }

  lemma GoldIsLawful(fx: Fixture, when: map<nat, nat>, k: nat, reuse: bool, p: Progress, mid: Progress, g: Gold,
                     t: TaskRow)
    requires BuilderOk(fx, when, k, p) && LawOk(fx, k, p) && Chosen(fx, k, reuse, p, mid, g)
    requires p.history == [] ==> !reuse
    requires t.session == k && t.position == |p.history| + 1 && t.reuse == reuse
    requires t.required == g.required && t.forbidden == g.forbidden
    ensures GoldLaw(fx, p.tasks + [t], |p.tasks|)
  {
    var more, n := p.tasks + [t], |p.tasks|;
    NewBeforeStays(p.tasks, more, n);
    ReusedStays(p.tasks, more, n, k);
  }

  lemma EventsAreLawful(fx: Fixture, k: nat, reuse: bool, p: Progress, mid: Progress, g: Gold, t: TaskRow)
    requires HistoryOk(k, p) && mid.tasks == p.tasks && mid.history == p.history && k < |fx.anchors|
    requires g.required in mid.manifest && forall h :: h in mid.history ==> h in mid.manifest
    requires |p.history| > 1 ==> CorrectionTarget(mid) == p.history[1]
    requires t == MakeRow(k, |p.history| + 1, reuse, mid, g)
    requires GoldLaw(fx, p.tasks + [t], |p.tasks|)
    ensures EventLaw(fx, p.tasks + [t], |p.tasks|)
  {
    var more, n := p.tasks + [t], |p.tasks|;
    if t.position == 4 {
      assert HistoryAt(k, p, n - 2) && more[n - 2] == p.tasks[n - 2];
    }
  }

  lemma RowIsLawful(fx: Fixture, k: nat, reuse: bool, p: Progress, mid: Progress, g: Gold, t: TaskRow)
    requires Lawful(fx, p.tasks) && HistoryOk(k, p) && SecondIsCurrent(fx, mid) && k < |fx.anchors|
    requires mid.tasks == p.tasks && mid.history == p.history
    requires SameArtifacts(fx, mid.manifest)
    requires g.required in mid.manifest && forall h :: h in mid.history ==> h in mid.manifest
    requires t == MakeRow(k, |p.history| + 1, reuse, mid, g)
    requires GoldLaw(fx, p.tasks + [t], |p.tasks|)
    ensures Lawful(fx, p.tasks + [t])
  {
    if |p.history| > 1 {
      CorrectsSecond(fx, mid);
    }
    EventsAreLawful(fx, k, reuse, p, mid, g, t);
    LawfulSnoc(fx, p.tasks, t);
  }

  lemma HistorySnoc(k: nat, p: Progress, q: Progress, t: TaskRow)
    requires HistoryOk(k, p) && t.session == k && t.position == |p.history| + 1
    requires q.tasks == p.tasks + [t] && q.history == p.history + [t.required]
    ensures HistoryOk(k, q)
  {
    forall i | 0 <= i < |q.tasks|
      ensures HistoryAt(k, q, i)
    {
      if i < |p.tasks| {
        assert HistoryAt(k, p, i);
      }
    }
  }

  lemma CountsSnoc(k: nat, tasks: seq<TaskRow>, t: TaskRow)
    requires t.session == k
    ensures var n, more := |tasks|, tasks + [t];
      && NewBefore(more, n + 1) == NewBefore(tasks, n) + (if !t.reuse && t.position != 1 then 1 else 0)
      && (ReusedBefore(more, n + 1, k) <==> ReusedBefore(tasks, n, k) || t.reuse)
  {
    var n, more := |tasks|, tasks + [t];
    NewBeforeStays(tasks, more, n);
    ReusedStays(tasks, more, n, k);
    assert more[n] == t;
  }

  lemma AdvancedLaw(fx: Fixture, k: nat, reuse: bool, p: Progress, mid: Progress, t: TaskRow)
    requires LawOk(fx, k, p) && (p.history == [] ==> !reuse)
    requires mid.tasks == p.tasks && mid.history == p.history && SecondIsCurrent(fx, mid)
    requires mid.superseded == (p.superseded || (reuse && p.history != []))
    requires mid.cursor == p.cursor + if !reuse && p.history != [] then 1 else 0
    requires t.session == k && t.position == |p.history| + 1 && t.reuse == reuse
    requires t.required in fx.manifest && t.artifact == fx.ArtifactOf(t.required)
    requires t.artifact in mid.current ==> mid.current[t.artifact] == t.required
    requires Lawful(fx, p.tasks + [t])
    ensures LawOk(fx, k, Advanced(mid, t))
  {
    HistorySnoc(k, p, Advanced(mid, t), t);
    CountsSnoc(k, p.tasks, t);
  }

  lemma MadeRowLaw(fx: Fixture, when: map<nat, nat>, k: nat, reuse: bool, p: Progress, mid: Progress, g: Gold,
                   t: TaskRow)
    requires BuilderOk(fx, when, k, p) && LawOk(fx, k, p) && Chosen(fx, k, reuse, p, mid, g)
    requires p.history == [] ==> !reuse && p.current == map[]
    requires g.required in mid.manifest && forall h :: h in mid.history ==> h in mid.manifest
    requires t == MakeRow(k, |p.history| + 1, reuse, mid, g)
    ensures LawOk(fx, k, Advanced(mid, t))
  {
    ChosenFacts(fx, when, k, reuse, p, mid, g);
    GoldIsLawful(fx, when, k, reuse, p, mid, g, t);
    RowIsLawful(fx, k, reuse, p, mid, g, t);
    AdvancedLaw(fx, k, reuse, p, mid, t);
  }

  /** One pass of the task loop keeps the laws. */
  lemma StepKeepsLaw(fx: Fixture, when: map<nat, nat>, k: nat, position: nat, reuse: bool, p: Progress, q: Progress)
    requires BuilderOk(fx, when, k, p) && LawOk(fx, k, p) && position == |p.history| + 1
    requires p.history == [] ==> !reuse && p.current == map[]
    requires Step(fx, k, position, reuse, p, q)
    ensures LawOk(fx, k, q)
  {
    var mid, g :|
      && Chosen(fx, k, reuse, p, mid, g)
      && g.required in mid.manifest && (forall h :: h in mid.history ==> h in mid.manifest)
      && q == Advanced(mid, MakeRow(k, position, reuse, mid, g));
    MadeRowLaw(fx, when, k, reuse, p, mid, g, MakeRow(k, position, reuse, mid, g));
  }

  // ----- how often a session reuses and an anchor is superseded -----

  /** The rows from tasks to more are n reuse rows of session k and rows without reuse. */
  ghost predicate RepeatsGrow(tasks: seq<TaskRow>, more: seq<TaskRow>, k: nat, n: nat) {
    forall j: nat :: RepeatsIn(more, j) == RepeatsIn(tasks, j) + if j == k then n else 0
  }

  lemma RepeatsSnoc(tasks: seq<TaskRow>, more: seq<TaskRow>)
    requires |more| == |tasks| + 1 && more[..|tasks|] == tasks
    ensures RepeatsGrow(tasks, more, more[|tasks|].session, if more[|tasks|].reuse then 1 else 0)
  {
  }

  lemma {:induction false} RepeatsPositive(tasks: seq<TaskRow>, k: nat)
    ensures RepeatsIn(tasks, k) > 0 <==> ReusedBefore(tasks, |tasks|, k)
  {
    if tasks != [] {
      var n := |tasks| - 1;
      RepeatsPositive(tasks[..n], k);
      ReusedStays(tasks[..n], tasks, n, k);
      assert ReusedBefore(tasks, n + 1, k) <==> ReusedBefore(tasks, n, k) || (tasks[n].session == k && tasks[n].reuse);
    }
  }

  /** The rows that forbid a version. */
  function Supersessions(tasks: seq<TaskRow>): set<nat> {
    set i: nat | i < |tasks| && tasks[i].forbidden != []
  }

  function ReusedSessions(tasks: seq<TaskRow>): set<nat> {
    set i: nat | i < |tasks| && tasks[i].reuse :: tasks[i].session
  }

  lemma SupersessionsSnoc(fx: Fixture, tasks: seq<TaskRow>)
    requires tasks != [] && Lawful(fx, tasks)
    ensures var n := |tasks| - 1;
      Supersessions(tasks) == Supersessions(tasks[..n]) + if FirstReuse(tasks, n) then {n} else {}
  {
    var n := |tasks| - 1;
    assert RowLaw(fx, tasks, n);
    assert forall i :: 0 <= i < n ==> tasks[..n][i] == tasks[i];
  }

  lemma SessionsSnoc(tasks: seq<TaskRow>)
    requires tasks != []
    ensures var n := |tasks| - 1;
      && ReusedSessions(tasks) == ReusedSessions(tasks[..n]) + (if tasks[n].reuse then {tasks[n].session} else {})
      && (tasks[n].session in ReusedSessions(tasks[..n]) <==> ReusedBefore(tasks, n, tasks[n].session))
  {
    var n := |tasks| - 1;
    assert forall i :: 0 <= i < n ==> tasks[..n][i] == tasks[i];
  }

  lemma LawfulPrefix(fx: Fixture, tasks: seq<TaskRow>, n: nat)
    requires n <= |tasks| && Lawful(fx, tasks)
    ensures Lawful(fx, tasks[..n])
  {
    forall i | 0 <= i < n
      ensures RowLaw(fx, tasks[..n], i)
    {
      LawStays(fx, tasks[..n], tasks, i);
    }
  }

  /** One row supersedes for every session that reuses anything. */
  lemma {:induction false} OneSupersessionEach(fx: Fixture, tasks: seq<TaskRow>)
    requires Lawful(fx, tasks)
    ensures |Supersessions(tasks)| == |ReusedSessions(tasks)|
  {
    if tasks != [] {
      var n := |tasks| - 1;
      LawfulPrefix(fx, tasks, n);
      OneSupersessionEach(fx, tasks[..n]);
      SupersessionsSnoc(fx, tasks);
      SessionsSnoc(tasks);
      assert n !in Supersessions(tasks[..n]);
      if tasks[n].reuse && !FirstReuse(tasks, n) {
        assert ReusedSessions(tasks) == ReusedSessions(tasks[..n]);
      }
    }
  }
}
