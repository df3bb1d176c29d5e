/** The session schedule with an exact reuse factor (src/karc/bench/e5_killgate.py). */
module ReuseSchedule {
  import opened Collections
  import opened Belady

  datatype Artifact = Artifact(id: string)

  datatype Entry = Entry(artifact: Artifact, validFrom: Option<int>, supersededAt: Option<int>)

  type Manifest = map<Version, Entry>

  predicate Active(e: Entry, at: int) {
    e.validFrom.Some? && e.validFrom.value <= at && (e.supersededAt.None? || e.supersededAt.value > at)
  }

  datatype Anchor = Anchor(v1: Version, v2: Version)

  /** The corpus after shuffling: stable versions, versioned anchors, and the manifest they are listed in. */
  datatype Fixture = Fixture(stable: seq<Version>, anchors: seq<Anchor>, manifest: Manifest) {
    function ArtifactOf(v: Version): Artifact
      requires v in manifest
    {
      manifest[v].artifact
    }

    /** What the frozen corpus guarantees: one document per stable version, one per anchor pair, all different. */
    ghost predicate WellFormed() {
      && (forall m :: 0 <= m < |stable| ==>
            stable[m] in manifest && manifest[stable[m]].validFrom == Some(1)
            && manifest[stable[m]].supersededAt == None)
      && (forall k :: 0 <= k < |anchors| ==> anchors[k].v1 in manifest && anchors[k].v2 in manifest && AnchorListed(k))
      && (forall m, n :: 0 <= m < n < |stable| ==> ArtifactOf(stable[m]) != ArtifactOf(stable[n]))
      && (forall k, l :: 0 <= k < l < |anchors| ==> ArtifactOf(anchors[k].v1) != ArtifactOf(anchors[l].v1))
      && (forall m, k :: 0 <= m < |stable| && 0 <= k < |anchors| ==> ArtifactOf(stable[m]) != ArtifactOf(anchors[k].v1))
    }

    ghost predicate AnchorListed(k: nat)
      requires k < |anchors| && anchors[k].v1 in manifest && anchors[k].v2 in manifest
    {
      var a := anchors[k];
      && a.v1 != a.v2
      && manifest[a.v1].artifact == manifest[a.v2].artifact
      && manifest[a.v1].validFrom == Some(1) && manifest[a.v1].supersededAt == None
      && manifest[a.v2].validFrom == None && manifest[a.v2].supersededAt == None
    }
  }

  datatype TaskRow = TaskRow(
    seqNo: nat, session: nat, position: nat, required: Version, artifact: Artifact,
    forbidden: seq<Version>, events: seq<Event>, validated: bool, reuse: bool)

  datatype Failure = ValueError | AssertionError | IndexError | DivisionByZero

  // ----- allocation of repeats to sessions -----

  function Spread(base: nat, extra: nat, n: nat): (r: seq<nat>)
    ensures |r| == n
    ensures forall i :: 0 <= i < n ==> r[i] == base + if i < extra then 1 else 0
  {
    seq(n, i => base + if i < extra then 1 else 0)
  }

  /** divmod shares: the first total % count sessions get one more. */
  function Shares(total: nat, count: nat): seq<nat>
    requires count > 0
  {
    Spread(total / count, total % count, count)
  }

  /** The reuse factor is quarters / 4. None stands for the AssertionError of an inexact total. */
  function RepeatAllocation(quarters: nat, length: nat, count: nat): Option<seq<nat>>
    requires length >= 1 && count > 0
  {
    var opportunities := count * (length - 1);
    if quarters * opportunities % 4 != 0 then None else Some(Shares(quarters * opportunities / 4, count))
  }

  lemma {:induction false} SpreadSum(base: nat, extra: nat, n: nat)
    ensures Sum(Spread(base, extra, n)) == base * n + if extra < n then extra else n
  {
    if n > 0 {
      SpreadSum(base, extra, n - 1);
      assert Spread(base, extra, n)[..n - 1] == Spread(base, extra, n - 1);
      assert base * n == base * (n - 1) + base;
    }
  }

  /** Quarters of a multiple of four are exact. */
  lemma ExactQuarters(quarters: nat, count: nat, room: nat) returns (total: nat)
    requires quarters <= 4 && count % 4 == 0
    ensures quarters * (count * room) == 4 * total
    ensures total <= count * room
  {
    var c := count / 4;
    assert count * room == 4 * (c * room) by {
      assert count == 4 * c;
    }
    total := quarters * (c * room);
    assert total <= 4 * (c * room);
  }

  lemma DivMod(total: nat, count: nat)
    requires count > 0
    ensures total / count * count + total % count == total
  {
  }

  lemma SharesFacts(total: nat, count: nat, room: nat)
    requires count > 0 && total <= count * room
    ensures |Shares(total, count)| == count && Sum(Shares(total, count)) == total
    ensures forall i :: 0 <= i < count ==> Shares(total, count)[i] <= room
  {
    var q, r := total / count, total % count;
    SpreadSum(q, r, count);
    DivMod(total, count);
    ShareFits(q, r, count, room);
  }

  lemma ShareFits(q: nat, r: nat, count: nat, room: nat)
    requires r < count && q * count + r <= count * room
    ensures q + (if r > 0 then 1 else 0) <= room
  {
    if q >= room {
      assert q * count >= room * count;
    }
  }

  /** A session count that is a multiple of four always meets the requested factor exactly, in every session. */
  lemma AllocationExact(quarters: nat, length: nat, count: nat)
    requires quarters <= 4 && length >= 1 && count > 0 && count % 4 == 0
    ensures var a := RepeatAllocation(quarters, length, count);
      && a.Some? && |a.value| == count
      && 4 * Sum(a.value) == quarters * (count * (length - 1))
      && forall i :: 0 <= i < count ==> a.value[i] <= length - 1
  {
    var total := ExactQuarters(quarters, count, length - 1);
    SharesFacts(total, count, length - 1);
  }

  // ----- where the builder stands -----

  datatype Progress = Progress(
    tasks: seq<TaskRow>, manifest: Manifest, cursor: nat,
    current: map<Artifact, Version>, history: seq<Version>, superseded: bool)

  /** The manifest is the corpus with the anchors of the sessions in when superseded at the recorded task. */
  ghost predicate Tracks(fx: Fixture, when: map<nat, nat>, manifest: Manifest)
    requires fx.WellFormed()
  {
    && manifest.Keys == fx.manifest.Keys
    && (forall v :: v in manifest ==> manifest[v].artifact == fx.manifest[v].artifact)
    && (forall m :: 0 <= m < |fx.stable| ==> manifest[fx.stable[m]] == fx.manifest[fx.stable[m]])
    && forall k :: 0 <= k < |fx.anchors| ==> AnchorTracks(fx, when, manifest, k)
  }

  ghost predicate AnchorTracks(fx: Fixture, when: map<nat, nat>, manifest: Manifest, k: nat)
    requires fx.WellFormed() && k < |fx.anchors| && manifest.Keys == fx.manifest.Keys
  {
    var e1, e2 := manifest[fx.anchors[k].v1], manifest[fx.anchors[k].v2];
    if k in when then
      && e1.validFrom == Some(1) && e1.supersededAt == Some(when[k])
      && e2.validFrom == Some(when[k]) && e2.supersededAt == None
    else
      e1.validFrom == Some(1) && e1.supersededAt == None && e2.validFrom == None && e2.supersededAt == None
  }

  /** The versions that session k may use as gold for task number at. */
  ghost predicate Live(fx: Fixture, when: map<nat, nat>, cursor: nat, k: nat, at: nat, v: Version)
    requires k < |fx.anchors| && cursor <= |fx.stable|
  {
    || (v == fx.anchors[k].v1 && (k !in when || at < when[k]))
    || (v == fx.anchors[k].v2 && k in when && when[k] <= at)
    || v in fx.stable[..cursor]
  }

  lemma LiveIsActive(fx: Fixture, when: map<nat, nat>, manifest: Manifest, cursor: nat, k: nat, at: nat, v: Version)
    requires fx.WellFormed() && Tracks(fx, when, manifest) && k < |fx.anchors| && cursor <= |fx.stable|
    requires Live(fx, when, cursor, k, at, v) && at >= 1
    ensures v in manifest && Active(manifest[v], at)
  {
    assert AnchorTracks(fx, when, manifest, k);
    if v in fx.stable[..cursor] {
      var m :| 0 <= m < cursor && fx.stable[m] == v;
      assert manifest[fx.stable[m]] == fx.manifest[fx.stable[m]];
    }
  }

  /** A row only uses live versions, and forbids only an anchor superseded by itself. */
  ghost predicate RowOk(fx: Fixture, when: map<nat, nat>, cursor: nat, t: TaskRow)
    requires cursor <= |fx.stable|
  {
    && t.session < |fx.anchors|
    && t.required in fx.manifest && t.artifact == fx.ArtifactOf(t.required)
    && Live(fx, when, cursor, t.session, t.seqNo, t.required)
    && (forall v :: v in t.forbidden ==>
          v == fx.anchors[t.session].v1 && t.session in when && when[t.session] == t.seqNo)
    && (forall v :: ValidityChanged(v) in t.events <==> v in t.forbidden)
    && (forall v :: Corrected(v) in t.events ==> Live(fx, when, cursor, t.session, t.seqNo, v))
  }

  /** The flag of row i says whether its artifact was gold earlier in its session. */
  ghost predicate FlagOk(tasks: seq<TaskRow>, i: nat)
    requires i < |tasks|
  {
    tasks[i].reuse <==>
      exists j :: 0 <= j < i && tasks[j].session == tasks[i].session && tasks[j].artifact == tasks[i].artifact
  }

  ghost predicate RowAt(fx: Fixture, when: map<nat, nat>, cursor: nat, tasks: seq<TaskRow>, i: nat)
    requires cursor <= |fx.stable| && i < |tasks|
  {
    tasks[i].seqNo == i + 1 && RowOk(fx, when, cursor, tasks[i]) && FlagOk(tasks, i)
  }

  ghost predicate TasksOk(fx: Fixture, when: map<nat, nat>, cursor: nat, tasks: seq<TaskRow>)
    requires cursor <= |fx.stable|
  {
    forall i :: 0 <= i < |tasks| ==> RowAt(fx, when, cursor, tasks, i)
  }

  ghost predicate WasGold(tasks: seq<TaskRow>, k: nat, a: Artifact) {
    exists j :: 0 <= j < |tasks| && tasks[j].session == k && tasks[j].artifact == a
  }

  /** The current version of each artifact that was gold in session k. */
  ghost predicate CurrentOk(fx: Fixture, when: map<nat, nat>, k: nat, p: Progress)
    requires k < |fx.anchors| && p.cursor <= |fx.stable| && fx.WellFormed()
  {
    && (p.superseded <==> k in when)
    && (forall a :: a in p.current ==>
          p.current[a] in fx.manifest && fx.ArtifactOf(p.current[a]) == a &&
          Live(fx, when, p.cursor, k, |p.tasks| + 1, p.current[a]))
    && (forall a :: a in p.current <==> WasGold(p.tasks, k, a))
    && (p.history != [] ==> fx.ArtifactOf(fx.anchors[k].v1) in p.current)
    && forall h :: h in p.history ==> h in fx.manifest && fx.ArtifactOf(h) in p.current
  }

  ghost predicate BuilderOk(fx: Fixture, when: map<nat, nat>, k: nat, p: Progress) {
    && fx.WellFormed() && k < |fx.anchors| && p.cursor <= |fx.stable|
    && Tracks(fx, when, p.manifest)
    && TasksOk(fx, when, p.cursor, p.tasks)
    && CurrentOk(fx, when, k, p)
    && RecordedSoFar(when, k, |p.tasks|)
    && SessionsSoFar(p.tasks, k)
  }

  ghost predicate RecordedSoFar(when: map<nat, nat>, k: nat, tasks: nat) {
    forall l :: l in when ==> l <= k && when[l] <= tasks + 1
  }

  ghost predicate SessionsSoFar(tasks: seq<TaskRow>, k: nat) {
    forall i :: 0 <= i < |tasks| ==> tasks[i].session <= k
  }

  lemma FlagOfLast(tasks: seq<TaskRow>, t: TaskRow)
    requires t.reuse <==> WasGold(tasks, t.session, t.artifact)
    ensures FlagOk(tasks + [t], |tasks|)
  {
    var more := tasks + [t];
    if j :| 0 <= j < |tasks| && tasks[j].session == t.session && tasks[j].artifact == t.artifact {
      assert more[j].session == t.session && more[j].artifact == t.artifact;
    }
    if j :| 0 <= j < |tasks| && more[j].session == t.session && more[j].artifact == t.artifact {
      assert tasks[j] == more[j];
    }
  }

  lemma FlagStays(tasks: seq<TaskRow>, more: seq<TaskRow>, i: nat)
    requires i < |tasks| <= |more| && more[..|tasks|] == tasks && FlagOk(tasks, i)
    ensures FlagOk(more, i)
  {
    assert forall j :: 0 <= j <= i ==> tasks[j] == more[j];
  }

  /** Appending a row. */
  lemma AppendRow(fx: Fixture, when: map<nat, nat>, cursor: nat, tasks: seq<TaskRow>, t: TaskRow)
    requires cursor <= |fx.stable| && TasksOk(fx, when, cursor, tasks)
    requires t.seqNo == |tasks| + 1 && RowOk(fx, when, cursor, t)
    requires t.reuse <==> WasGold(tasks, t.session, t.artifact)
    ensures TasksOk(fx, when, cursor, tasks + [t])
  {
    var more := tasks + [t];
    FlagOfLast(tasks, t);
    forall i | 0 <= i < |more|
      ensures RowAt(fx, when, cursor, more, i)
    {
      if i < |tasks| {
        assert RowAt(fx, when, cursor, tasks, i);
        FlagStays(tasks, more, i);
      }
    }
  }

  /** The artifacts of stable versions not taken yet are new to the session. */
  lemma NextStableIsNew(fx: Fixture, when: map<nat, nat>, k: nat, p: Progress)
    requires BuilderOk(fx, when, k, p) && p.cursor < |fx.stable|
    ensures fx.ArtifactOf(fx.stable[p.cursor]) !in p.current
  {
    forall v | Live(fx, when, p.cursor, k, |p.tasks| + 1, v)
      ensures v in fx.manifest && fx.ArtifactOf(v) != fx.ArtifactOf(fx.stable[p.cursor])
    {
      assert fx.AnchorListed(k);
    }
  }

  // ----- supersession of the session's anchor -----

  function Superseded(fx: Fixture, k: nat, p: Progress): Progress
    requires k < |fx.anchors| && fx.anchors[k].v1 in p.manifest && fx.anchors[k].v2 in p.manifest
  {
    var a, at := fx.anchors[k], |p.tasks| + 1;
    var m1 := p.manifest[a.v1 := p.manifest[a.v1].(supersededAt := Some(at))];
    var m2 := m1[a.v2 := m1[a.v2].(validFrom := Some(at))];
    p.(manifest := m2, current := p.current[m2[a.v1].artifact := a.v2], superseded := true)
  }

  lemma SupersededTracks(fx: Fixture, when: map<nat, nat>, k: nat, p: Progress)
    requires fx.WellFormed() && k < |fx.anchors| && Tracks(fx, when, p.manifest) && k !in when
    ensures Tracks(fx, when[k := |p.tasks| + 1], Superseded(fx, k, p).manifest)
  {
    var a, at, when' := fx.anchors[k], |p.tasks| + 1, when[k := |p.tasks| + 1];
    var m := Superseded(fx, k, p).manifest;
    assert fx.AnchorListed(k);
    forall n | 0 <= n < |fx.stable|
      ensures m[fx.stable[n]] == fx.manifest[fx.stable[n]]
    {
      assert fx.ArtifactOf(fx.stable[n]) != fx.ArtifactOf(a.v1);
    }
    forall l | 0 <= l < |fx.anchors|
      ensures AnchorTracks(fx, when', m, l)
    {
      assert AnchorTracks(fx, when, p.manifest, l) && fx.AnchorListed(l);
      if l != k {
        AnchorsApart(fx, k, l);
      }
    }
  }

  lemma AnchorsApart(fx: Fixture, k: nat, l: nat)
    requires fx.WellFormed() && k < |fx.anchors| && l < |fx.anchors| && k != l
    ensures fx.anchors[k].v1 != fx.anchors[l].v1 && fx.anchors[k].v1 != fx.anchors[l].v2
    ensures fx.anchors[k].v2 != fx.anchors[l].v1 && fx.anchors[k].v2 != fx.anchors[l].v2
  {
    assert fx.AnchorListed(k) && fx.AnchorListed(l);
    assert fx.ArtifactOf(fx.anchors[k].v1) != fx.ArtifactOf(fx.anchors[l].v1);
  }

  lemma SupersededRows(fx: Fixture, when: map<nat, nat>, cursor: nat, tasks: seq<TaskRow>, k: nat)
    requires cursor <= |fx.stable| && TasksOk(fx, when, cursor, tasks) && k !in when
    ensures TasksOk(fx, when[k := |tasks| + 1], cursor, tasks)
  {
    var when' := when[k := |tasks| + 1];
    forall i | 0 <= i < |tasks|
      ensures RowAt(fx, when', cursor, tasks, i)
    {
      assert RowAt(fx, when, cursor, tasks, i);
    }
  }

  lemma SupersededManifest(fx: Fixture, when: map<nat, nat>, k: nat, p: Progress, when': map<nat, nat>, q: Progress)
    requires BuilderOk(fx, when, k, p) && k !in when && p.history != []
    requires when' == when[k := |p.tasks| + 1] && q == Superseded(fx, k, p)
    ensures Tracks(fx, when', q.manifest)
  {
    SupersededTracks(fx, when, k, p);
  }

  lemma SupersededTasks(fx: Fixture, when: map<nat, nat>, k: nat, p: Progress, when': map<nat, nat>, q: Progress)
    requires BuilderOk(fx, when, k, p) && k !in when && p.history != []
    requires when' == when[k := |p.tasks| + 1] && q == Superseded(fx, k, p)
    ensures TasksOk(fx, when', q.cursor, q.tasks)
  {
    SupersededRows(fx, when, p.cursor, p.tasks, k);
  }

  lemma SupersededOk(fx: Fixture, when: map<nat, nat>, k: nat, p: Progress, when': map<nat, nat>, q: Progress)
    requires BuilderOk(fx, when, k, p) && k !in when && p.history != []
    requires when' == when[k := |p.tasks| + 1] && q == Superseded(fx, k, p)
    ensures BuilderOk(fx, when', k, q)
  {
    SupersededManifest(fx, when, k, p, when', q);
    SupersededTasks(fx, when, k, p, when', q);
  }

  // ----- one task -----

  /** What the branches on the task's position and reuse flag decide. */
  datatype Gold = Gold(required: Version, forbidden: seq<Version>)

  /** The gold version is live, and it is new to the session exactly if the task is not a reuse task. */
  ghost predicate GoldOk(fx: Fixture, when: map<nat, nat>, k: nat, p: Progress, reuse: bool, g: Gold)
    requires k < |fx.anchors| && p.cursor <= |fx.stable|
  {
    && g.required in fx.manifest
    && Live(fx, when, p.cursor, k, |p.tasks| + 1, g.required)
    && (reuse <==> fx.ArtifactOf(g.required) in p.current)
    && (g.forbidden == [] || (g.forbidden == [fx.anchors[k].v1] && k in when && when[k] == |p.tasks| + 1))
    && (p.history == [] ==> g.required == fx.anchors[k].v1)
  }

  /**
   * What the branches may do: the anchor opens its session, the first reuse task supersedes it, later reuse tasks take
   * some current version, and new tasks take the next stable version.
   */
  ghost predicate Chosen(fx: Fixture, k: nat, reuse: bool, p: Progress, q: Progress, g: Gold)
    requires fx.WellFormed() && k < |fx.anchors|
    requires p.manifest.Keys == fx.manifest.Keys
  {
    if p.history == [] then
      q == p && g == Gold(fx.anchors[k].v1, [])
    else if !reuse then
      p.cursor < |fx.stable| && q == p.(cursor := p.cursor + 1) && g == Gold(fx.stable[p.cursor], [])
    else if p.superseded then
      q == p && g.forbidden == [] && exists a :: a in p.current && g.required == p.current[a]
    else
      q == Superseded(fx, k, p) && g == Gold(fx.anchors[k].v2, [fx.anchors[k].v1])
  }

  method ChooseGold(fx: Fixture, k: nat, reuse: bool, p: Progress, ghost when: map<nat, nat>)
    returns (failure: Option<Failure>, q: Progress, g: Gold, ghost when': map<nat, nat>)
    requires BuilderOk(fx, when, k, p)
    requires p.history == [] ==> !reuse && p.current == map[] && k !in when
    ensures failure.Some? <==> !reuse && p.history != [] && p.cursor == |fx.stable|
    ensures failure.Some? ==> failure == Some(IndexError)
    ensures failure.None? ==> BuilderOk(fx, when', k, q) && GoldOk(fx, when', k, q, reuse, g)
    ensures failure.None? ==> q.tasks == p.tasks && q.history == p.history
    ensures failure.None? ==> q.cursor == p.cursor + if !reuse && p.history != [] then 1 else 0
    ensures failure.None? ==> Chosen(fx, k, reuse, p, q, g)
  {
    var anchor := fx.anchors[k];
    failure, q, g, when' := None, p, Gold(anchor.v1, []), when;
    assert fx.AnchorListed(k);
    if p.history == [] {
      return;
    }
    if reuse && !p.superseded {
      q := Superseded(fx, k, p);
      when' := when[k := |p.tasks| + 1];
      SupersededOk(fx, when, k, p, when', q);
      g := Gold(anchor.v2, [anchor.v1]);
    } else if reuse {
      assert p.current.Keys != {};
      var a :| a in p.current;
      g := Gold(p.current[a], []);
    } else {
      if p.cursor == |fx.stable| {
        failure := Some(IndexError);
        return;
      }
      NextStableIsNew(fx, when, k, p);
      q := p.(cursor := p.cursor + 1);
      g := Gold(fx.stable[p.cursor], []);
      CursorAdvances(fx, when, k, p);
    }
  }

  lemma CursorAdvances(fx: Fixture, when: map<nat, nat>, k: nat, p: Progress)
    requires BuilderOk(fx, when, k, p) && p.cursor < |fx.stable|
    ensures BuilderOk(fx, when, k, p.(cursor := p.cursor + 1))
    ensures Live(fx, when, p.cursor + 1, k, |p.tasks| + 1, fx.stable[p.cursor])
  {
    var q := p.(cursor := p.cursor + 1);
    assert fx.stable[..q.cursor] == fx.stable[..p.cursor] + [fx.stable[p.cursor]];
    forall i | 0 <= i < |p.tasks|
      ensures RowAt(fx, when, q.cursor, p.tasks, i)
    {
      assert RowAt(fx, when, p.cursor, p.tasks, i);
    }
  }

  /** The correction event of a session's fourth task: the current version of its second (or only) gold artifact. */
  function CorrectionTarget(p: Progress): Version
    requires p.history != [] && forall h :: h in p.history ==> h in p.manifest
  {
    var target := if |p.history| > 1 then p.history[1] else p.history[0];
    var artifact := p.manifest[target].artifact;
    if artifact in p.current then p.current[artifact] else target
  }

  function MakeRow(k: nat, position: nat, reuse: bool, p: Progress, g: Gold): TaskRow
    requires g.required in p.manifest
    requires forall h :: h in p.history ==> h in p.manifest
  {
    var superseding := seq(|g.forbidden|, i requires 0 <= i < |g.forbidden| => ValidityChanged(g.forbidden[i]));
    var correcting := if position == 4 && p.history != [] then [Corrected(CorrectionTarget(p))] else [];
    TaskRow(|p.tasks| + 1, k, position, g.required, p.manifest[g.required].artifact, g.forbidden,
            superseding + correcting, position == 2, reuse)
  }

  lemma RowIsOk(fx: Fixture, when: map<nat, nat>, k: nat, p: Progress, position: nat, reuse: bool, g: Gold)
    requires BuilderOk(fx, when, k, p) && GoldOk(fx, when, k, p, reuse, g)
    ensures g.required in p.manifest && forall h :: h in p.history ==> h in p.manifest
    ensures RowOk(fx, when, p.cursor, MakeRow(k, position, reuse, p, g))
  {
    var t := MakeRow(k, position, reuse, p, g);
    var superseding := seq(|g.forbidden|, i requires 0 <= i < |g.forbidden| => ValidityChanged(g.forbidden[i]));
    forall v
      ensures ValidityChanged(v) in t.events <==> v in g.forbidden
    {
      if v in g.forbidden {
        assert superseding[0] == ValidityChanged(v) && t.events[0] == superseding[0];
      }
    }
    if position == 4 && p.history != [] {
      var target := if |p.history| > 1 then p.history[1] else p.history[0];
      assert target in p.history;
      assert Live(fx, when, p.cursor, k, |p.tasks| + 1, CorrectionTarget(p));
    }
  }

  function Advanced(p: Progress, t: TaskRow): Progress {
    p.(tasks := p.tasks + [t], current := p.current[t.artifact := t.required], history := p.history + [t.required])
  }

  lemma WasGoldSnoc(tasks: seq<TaskRow>, t: TaskRow, k: nat, a: Artifact)
    ensures WasGold(tasks + [t], k, a) <==> WasGold(tasks, k, a) || (t.session == k && t.artifact == a)
  {
    var more := tasks + [t];
    if WasGold(tasks, k, a) {
      var j :| 0 <= j < |tasks| && tasks[j].session == k && tasks[j].artifact == a;
      assert more[j].session == k && more[j].artifact == a;
    }
    assert more[|tasks|] == t;
  }

  lemma SessionArtifacts(tasks: seq<TaskRow>, t: TaskRow, k: nat, current: map<Artifact, Version>)
    requires forall a :: a in current <==> WasGold(tasks, k, a)
    requires t.session == k
    ensures forall a :: a in current[t.artifact := t.required] <==> WasGold(tasks + [t], k, a)
  {
    forall a
      ensures a in current[t.artifact := t.required] <==> WasGold(tasks + [t], k, a)
    {
      WasGoldSnoc(tasks, t, k, a);
    }
  }

  lemma AdvancedCurrent(fx: Fixture, when: map<nat, nat>, k: nat, p: Progress, t: TaskRow)
    requires fx.WellFormed() && k < |fx.anchors| && p.cursor <= |fx.stable|
    requires CurrentOk(fx, when, k, p) && RecordedSoFar(when, k, |p.tasks|)
    requires t.session == k && t.required in fx.manifest && t.artifact == fx.ArtifactOf(t.required)
    requires Live(fx, when, p.cursor, k, |p.tasks| + 1, t.required)
    requires p.history == [] ==> t.required == fx.anchors[k].v1
    ensures CurrentOk(fx, when, k, Advanced(p, t))
  {
    SessionArtifacts(p.tasks, t, k, p.current);
  }

  lemma AdvancedTasks(fx: Fixture, when: map<nat, nat>, k: nat, p: Progress, position: nat, reuse: bool, g: Gold,
                      t: TaskRow)
    requires BuilderOk(fx, when, k, p) && GoldOk(fx, when, k, p, reuse, g)
    requires forall h :: h in p.history ==> h in p.manifest
    requires g.required in p.manifest && t == MakeRow(k, position, reuse, p, g)
    ensures TasksOk(fx, when, p.cursor, p.tasks + [t])
  {
    RowIsOk(fx, when, k, p, position, reuse, g);
    AppendRow(fx, when, p.cursor, p.tasks, t);
  }

  lemma AdvancedSession(fx: Fixture, when: map<nat, nat>, k: nat, p: Progress, position: nat, reuse: bool, g: Gold,
                        t: TaskRow)
    requires BuilderOk(fx, when, k, p) && GoldOk(fx, when, k, p, reuse, g)
    requires forall h :: h in p.history ==> h in p.manifest
    requires g.required in p.manifest && t == MakeRow(k, position, reuse, p, g)
    ensures CurrentOk(fx, when, k, Advanced(p, t))
    ensures RecordedSoFar(when, k, |p.tasks| + 1) && SessionsSoFar(p.tasks + [t], k)
  {
    AdvancedCurrent(fx, when, k, p, t);
  }

  lemma AdvancedOk(fx: Fixture, when: map<nat, nat>, k: nat, p: Progress, position: nat, reuse: bool, g: Gold,
                   t: TaskRow)
    requires BuilderOk(fx, when, k, p) && GoldOk(fx, when, k, p, reuse, g)
    requires forall h :: h in p.history ==> h in p.manifest
    requires g.required in p.manifest && t == MakeRow(k, position, reuse, p, g)
    ensures BuilderOk(fx, when, k, Advanced(p, t))
  {
    AdvancedTasks(fx, when, k, p, position, reuse, g, t);
    AdvancedSession(fx, when, k, p, position, reuse, g, t);
  }

  /** One pass of the task loop that raises nothing. */
  ghost predicate Step(fx: Fixture, k: nat, position: nat, reuse: bool, p: Progress, q: Progress)
    requires fx.WellFormed() && k < |fx.anchors| && p.manifest.Keys == fx.manifest.Keys
  {
    exists mid, g ::
      && Chosen(fx, k, reuse, p, mid, g)
      && g.required in mid.manifest && (forall h :: h in mid.history ==> h in mid.manifest)
      && q == Advanced(mid, MakeRow(k, position, reuse, mid, g))
  }

  /** One pass of the task loop. */
  method BuildTask(fx: Fixture, k: nat, position: nat, reuse: bool, p: Progress, ghost when: map<nat, nat>)
    returns (failure: Option<Failure>, q: Progress, ghost when': map<nat, nat>)
    requires BuilderOk(fx, when, k, p)
    requires p.history == [] ==> !reuse && p.current == map[] && k !in when
    ensures failure.Some? <==> !reuse && p.history != [] && p.cursor == |fx.stable|
    ensures failure.Some? ==> failure == Some(IndexError)
    ensures failure.None? ==>
      && BuilderOk(fx, when', k, q)
      && |q.history| == |p.history| + 1
      && |q.tasks| == |p.tasks| + 1 && q.tasks[..|p.tasks|] == p.tasks
      && q.cursor == p.cursor + (if !reuse && p.history != [] then 1 else 0)
      && var t := q.tasks[|p.tasks|];
         t.session == k && t.position == position && t.reuse == reuse && t.validated == (position == 2)
    ensures failure.None? ==> Step(fx, k, position, reuse, p, q)
  {
    var g;
    failure, q, g, when' := ChooseGold(fx, k, reuse, p, when);
    if failure.Some? {
      return;
    }
    RowIsOk(fx, when', k, q, position, reuse, g);
    var t := MakeRow(k, position, reuse, q, g);
    if reuse && t.artifact !in q.current {
      failure := Some(AssertionError);
      return;
    }
    if !reuse && t.artifact in q.current {
      failure := Some(AssertionError);
      return;
    }
    AdvancedOk(fx, when', k, q, position, reuse, g, t);
    ghost var mid := q;
    q := Advanced(q, t);
    assert Chosen(fx, k, reuse, p, mid, g);
  }
}
