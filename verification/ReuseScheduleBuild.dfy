/** build_reuse_schedule: sessions over the whole batch, and what the finished schedule guarantees. */
module ReuseScheduleBuild {
  import opened Collections
  import Belady
  import opened ReuseSchedule
  import opened ReuseLaws

  function Trues(flags: seq<bool>): nat {
    if flags == [] then 0 else Trues(flags[..|flags| - 1]) + if flags[|flags| - 1] then 1 else 0
  }

  function Unshuffled(trues: nat, falses: nat): (r: seq<bool>)
    ensures |r| == trues + falses
  {
    seq(trues + falses, i => i < trues)
  }

  lemma {:induction false} UnshuffledTrues(trues: nat, falses: nat)
    ensures Trues(Unshuffled(trues, falses)) == trues
  {
    var r := Unshuffled(trues, falses);
    if falses > 0 {
      UnshuffledTrues(trues, falses - 1);
      assert r[..|r| - 1] == Unshuffled(trues, falses - 1);
    } else if trues > 0 {
      UnshuffledTrues(trues - 1, 0);
      assert r[..|r| - 1] == Unshuffled(trues - 1, 0);
    }
  }

  lemma {:induction false} TruesPrefix(flags: seq<bool>, i: nat)
    requires i <= |flags|
    ensures Trues(flags[..i]) <= i
    ensures i - Trues(flags[..i]) <= |flags| - Trues(flags)
    ensures i < |flags| ==> Trues(flags[..i + 1]) == Trues(flags[..i]) + if flags[i] then 1 else 0
  {
    if i == |flags| {
      assert flags[..i] == flags;
      TruesBound(flags);
    } else {
      var h := flags[..|flags| - 1];
      TruesPrefix(h, i);
      assert h[..i] == flags[..i];
      assert flags[..i + 1][..i] == flags[..i];
    }
  }

  lemma {:induction false} TruesBound(flags: seq<bool>)
    ensures Trues(flags) <= |flags|
  {
    if flags != [] {
      TruesBound(flags[..|flags| - 1]);
    }
  }

  function ReuseCount(tasks: seq<TaskRow>): nat {
    if tasks == [] then 0
    else ReuseCount(tasks[..|tasks| - 1]) + if tasks[|tasks| - 1].reuse then 1 else 0
  }

  /** Row i is the task at its place in its session. */
  ghost predicate InPlace(tasks: seq<TaskRow>, length: nat, i: nat)
    requires i < |tasks|
  {
    1 <= tasks[i].position <= length && tasks[i].session * length + tasks[i].position == i + 1
  }

  ghost predicate Placed(tasks: seq<TaskRow>, length: nat) {
    forall i :: 0 <= i < |tasks| ==> InPlace(tasks, length, i)
  }

  function Reset(p: Progress): Progress {
    p.(current := map[], history := [], superseded := false)
  }

  /** A task in its place: the row's position is tracked, and so is the number of reuse rows. */
  method PlaceTask(fx: Fixture, length: nat, k: nat, position: nat, reuse: bool, p: Progress, ghost when: map<nat, nat>)
    returns (failure: Option<Failure>, q: Progress, ghost when': map<nat, nat>)
    requires BuilderOk(fx, when, k, p)
    requires p.history == [] ==> !reuse && p.current == map[] && k !in when
    requires Placed(p.tasks, length) && 1 <= position <= length && k * length + position == |p.tasks| + 1
    requires LawOk(fx, k, p) && position == |p.history| + 1
    ensures failure.Some? <==> !reuse && p.history != [] && p.cursor == |fx.stable|
    ensures failure.Some? ==> failure == Some(IndexError)
    ensures failure.None? ==>
      && BuilderOk(fx, when', k, q)
      && |q.history| == |p.history| + 1
      && Placed(q.tasks, length) && |q.tasks| == |p.tasks| + 1
      && q.cursor == p.cursor + (if !reuse && p.history != [] then 1 else 0)
      && ReuseCount(q.tasks) == ReuseCount(p.tasks) + (if reuse then 1 else 0)
      && LawOk(fx, k, q) && RepeatsGrow(p.tasks, q.tasks, k, if reuse then 1 else 0)
  {
    failure, q, when' := BuildTask(fx, k, position, reuse, p, when);
    if failure.None? {
      StepKeepsLaw(fx, when, k, position, reuse, p, q);
      RepeatsSnoc(p.tasks, q.tasks);
      PlacedAfter(p.tasks, q.tasks, length);
    }
  }

  /** How far a session has come after its first tasks. */
  ghost predicate Reached(k: nat, p: Progress, q: Progress, flags: seq<bool>, position: nat)
    requires 1 <= position <= |flags| + 1
  {
    && |q.history| == position && |q.tasks| == |p.tasks| + position
    && q.cursor == p.cursor + (position - 1 - Trues(flags[..position - 1]))
    && ReuseCount(q.tasks) == ReuseCount(p.tasks) + Trues(flags[..position - 1])
    && RepeatsGrow(p.tasks, q.tasks, k, Trues(flags[..position - 1]))
  }

  ghost predicate InSession(fx: Fixture, length: nat, k: nat, p: Progress, flags: seq<bool>, position: nat, q: Progress,
                            when: map<nat, nat>)
    requires 1 <= position <= |flags| + 1
  {
    && BuilderOk(fx, when, k, q) && Reached(k, p, q, flags, position) && Placed(q.tasks, length)
    && LawOk(fx, k, q)
  }

  method Shuffled(repeats: nat, room: nat) returns (flags: seq<bool>)
    requires repeats <= room
    ensures |flags| == room && Trues(flags) == repeats
  {
    UnshuffledTrues(repeats, room - repeats);
    flags :| |flags| == room && Trues(flags) == repeats;
  }

  lemma GrowsOn(tasks: seq<TaskRow>, more: seq<TaskRow>, most: seq<TaskRow>, k: nat, m: nat, n: nat)
    requires RepeatsGrow(tasks, more, k, m) && RepeatsGrow(more, most, k, n)
    ensures RepeatsGrow(tasks, most, k, m + n)
  {
    forall j: nat
      ensures RepeatsIn(most, j) == RepeatsIn(tasks, j) + if j == k then m + n else 0
    {
      assert RepeatsIn(most, j) == RepeatsIn(more, j) + if j == k then n else 0;
    }
  }

  /** A task more, as its flag says. */
  lemma ReachedNext(k: nat, p: Progress, q0: Progress, q: Progress, flags: seq<bool>, position: nat)
    requires 2 <= position <= |flags| + 1 && Reached(k, p, q0, flags, position - 1)
    requires |q.history| == |q0.history| + 1 && |q.tasks| == |q0.tasks| + 1
    requires var n := if flags[position - 2] then 1 else 0;
      && q.cursor == q0.cursor + 1 - n && ReuseCount(q.tasks) == ReuseCount(q0.tasks) + n
      && RepeatsGrow(q0.tasks, q.tasks, k, n)
    ensures Reached(k, p, q, flags, position)
  {
    TruesPrefix(flags, position - 2);
    GrowsOn(p.tasks, q0.tasks, q.tasks, k, Trues(flags[..position - 2]), if flags[position - 2] then 1 else 0);
  }

  method NextTask(fx: Fixture, length: nat, k: nat, position: nat, flags: seq<bool>, ghost p: Progress, q0: Progress,
                  ghost when: map<nat, nat>)
    returns (failure: Option<Failure>, q: Progress, ghost when': map<nat, nat>)
    requires |flags| == length - 1 && 2 <= position <= length && |p.tasks| == k * length
    requires InSession(fx, length, k, p, flags, position - 1, q0, when)
    ensures failure.Some? ==> failure == Some(IndexError) && p.cursor + (length - 1 - Trues(flags)) > |fx.stable|
    ensures failure.None? ==> InSession(fx, length, k, p, flags, position, q, when')
  {
    TruesPrefix(flags, position - 2);
    TruesPrefix(flags, position - 1);
    failure, q, when' := PlaceTask(fx, length, k, position, flags[position - 2], q0, when);
    if failure.None? {
      ReachedNext(k, p, q0, q, flags, position);
    }
  }

  /** One session: its flags are any arrangement of the allotted number of repeats. */
  method BuildSession(fx: Fixture, length: nat, k: nat, repeats: nat, p: Progress, ghost when: map<nat, nat>)
    returns (failure: Option<Failure>, q: Progress, ghost when': map<nat, nat>)
    requires length >= 1 && repeats <= length - 1
    requires BuilderOk(fx, when, k, p) && p == Reset(p) && k !in when && LawOk(fx, k, p)
    requires Placed(p.tasks, length) && |p.tasks| == k * length
    ensures failure.Some? <==> p.cursor + (length - 1 - repeats) > |fx.stable|
    ensures failure.Some? ==> failure == Some(IndexError)
    ensures failure.None? ==>
      && BuilderOk(fx, when', k, q)
      && Placed(q.tasks, length) && |q.tasks| == k * length + length
      && q.cursor == p.cursor + (length - 1 - repeats)
      && ReuseCount(q.tasks) == ReuseCount(p.tasks) + repeats
      && LawOk(fx, k, q) && RepeatsGrow(p.tasks, q.tasks, k, repeats)
  {
    var flags := Shuffled(repeats, length - 1);
    failure, q, when' := PlaceTask(fx, length, k, 1, false, p, when);
    assert Reached(k, p, q, flags, 1);
    for position := 2 to length + 1
      invariant failure.None? && InSession(fx, length, k, p, flags, position - 1, q, when')
    {
      failure, q, when' := NextTask(fx, length, k, position, flags, p, q, when');
      if failure.Some? {
        return;
      }
    }
    assert flags[..length - 1] == flags;
  }

  lemma PlacedAfter(tasks: seq<TaskRow>, more: seq<TaskRow>, length: nat)
    requires Placed(tasks, length) && |more| == |tasks| + 1 && more[..|tasks|] == tasks
    requires InPlace(more, length, |tasks|)
    ensures Placed(more, length)
  {
    forall i | 0 <= i < |more|
      ensures InPlace(more, length, i)
    {
      if i < |tasks| {
        assert InPlace(tasks, length, i) && more[i] == more[..|tasks|][i];
      }
    }
  }

  // ----- what the finished schedule guarantees -----

  /** Gold is active at its task and forbidden versions are not, in the final manifest. */
  ghost predicate GoldActive(manifest: Manifest, tasks: seq<TaskRow>) {
    forall i :: 0 <= i < |tasks| ==>
      && tasks[i].seqNo == i + 1
      && tasks[i].required in manifest && Active(manifest[tasks[i].required], tasks[i].seqNo)
      && tasks[i].artifact == manifest[tasks[i].required].artifact
      && (forall v :: v in tasks[i].forbidden ==> v in manifest && !Active(manifest[v], tasks[i].seqNo))
      && (forall v :: Belady.Corrected(v) in tasks[i].events ==> v in manifest && Active(manifest[v], tasks[i].seqNo))
  }

  /** No version is invalidated by two tasks, and a task forbids exactly what it invalidates. */
  ghost predicate SupersedesOnce(tasks: seq<TaskRow>) {
    && (forall i, v :: 0 <= i < |tasks| ==> (Belady.ValidityChanged(v) in tasks[i].events <==> v in tasks[i].forbidden))
    && forall i, j, v :: 0 <= i < j < |tasks| && Belady.ValidityChanged(v) in tasks[i].events ==>
         Belady.ValidityChanged(v) !in tasks[j].events
  }

  /** The tasks as the clairvoyant cache sees them. */
  function Requests(tasks: seq<TaskRow>): (r: seq<Belady.Task>)
    ensures |r| == |tasks|
    ensures forall i :: 0 <= i < |r| ==> r[i] == Belady.Task(tasks[i].required, tasks[i].events)
  {
    seq(|tasks|, i requires 0 <= i < |tasks| => Belady.Task(tasks[i].required, tasks[i].events))
  }

  lemma BuiltGoldActive(fx: Fixture, when: map<nat, nat>, k: nat, p: Progress)
    requires BuilderOk(fx, when, k, p)
    ensures GoldActive(p.manifest, p.tasks)
  {
    forall i | 0 <= i < |p.tasks|
      ensures p.tasks[i].seqNo == i + 1
      ensures p.tasks[i].required in p.manifest && Active(p.manifest[p.tasks[i].required], p.tasks[i].seqNo)
      ensures p.tasks[i].artifact == p.manifest[p.tasks[i].required].artifact
      ensures forall v :: v in p.tasks[i].forbidden ==> v in p.manifest && !Active(p.manifest[v], p.tasks[i].seqNo)
      ensures forall v :: Belady.Corrected(v) in p.tasks[i].events ==>
                v in p.manifest && Active(p.manifest[v], p.tasks[i].seqNo)
    {
      RowActive(fx, when, k, p, i);
    }
  }

  lemma RowActive(fx: Fixture, when: map<nat, nat>, k: nat, p: Progress, i: nat)
    requires BuilderOk(fx, when, k, p) && i < |p.tasks|
    ensures var t := p.tasks[i];
      && t.seqNo == i + 1
      && t.required in p.manifest && Active(p.manifest[t.required], t.seqNo)
      && t.artifact == p.manifest[t.required].artifact
      && (forall v :: v in t.forbidden ==> v in p.manifest && !Active(p.manifest[v], t.seqNo))
      && (forall v :: Belady.Corrected(v) in t.events ==> v in p.manifest && Active(p.manifest[v], t.seqNo))
  {
    var t := p.tasks[i];
    assert RowAt(fx, when, p.cursor, p.tasks, i);
    LiveIsActive(fx, when, p.manifest, p.cursor, t.session, t.seqNo, t.required);
    assert AnchorTracks(fx, when, p.manifest, t.session) && fx.AnchorListed(t.session);
    forall v | Belady.Corrected(v) in t.events
      ensures v in p.manifest && Active(p.manifest[v], t.seqNo)
    {
      LiveIsActive(fx, when, p.manifest, p.cursor, t.session, t.seqNo, v);
    }
  }

  lemma BuiltFlags(fx: Fixture, when: map<nat, nat>, k: nat, p: Progress)
    requires BuilderOk(fx, when, k, p)
    ensures forall i :: 0 <= i < |p.tasks| ==> FlagOk(p.tasks, i)
  {
    forall i | 0 <= i < |p.tasks|
      ensures FlagOk(p.tasks, i)
    {
      assert RowAt(fx, when, p.cursor, p.tasks, i);
    }
  }

  lemma SameAnchor(fx: Fixture, k: nat, l: nat)
    requires fx.WellFormed() && k < |fx.anchors| && l < |fx.anchors| && fx.anchors[k].v1 == fx.anchors[l].v1
    ensures k == l
  {
    if k != l {
      AnchorsApart(fx, k, l);
    }
  }

  lemma BuiltSupersedesOnce(fx: Fixture, when: map<nat, nat>, k: nat, p: Progress)
    requires BuilderOk(fx, when, k, p)
    ensures SupersedesOnce(p.tasks)
  {
    forall i | 0 <= i < |p.tasks|
      ensures RowOk(fx, when, p.cursor, p.tasks[i]) && p.tasks[i].seqNo == i + 1
    {
      assert RowAt(fx, when, p.cursor, p.tasks, i);
    }
    forall i, j, v | 0 <= i < j < |p.tasks| && Belady.ValidityChanged(v) in p.tasks[i].events
      ensures Belady.ValidityChanged(v) !in p.tasks[j].events
    {
      if Belady.ValidityChanged(v) in p.tasks[j].events {
        assert v in p.tasks[i].forbidden && v in p.tasks[j].forbidden;
        SameAnchor(fx, p.tasks[i].session, p.tasks[j].session);
      }
    }
  }

  /** No version is required by or after a task that invalidates it. */
  ghost predicate NeverRevived(tasks: seq<Belady.Task>) {
    forall i, j :: 0 <= i <= j < |tasks| ==> tasks[j].required !in Belady.Invalidated(tasks[i])
  }

  /** Nothing invalidated is required again, which gives the hypothesis of the optimality of the clairvoyant cache. */
  lemma BuiltNoReturn(fx: Fixture, when: map<nat, nat>, k: nat, p: Progress)
    requires BuilderOk(fx, when, k, p)
    ensures NeverRevived(Requests(p.tasks)) && Belady.NoReturn(Requests(p.tasks))
  {
    forall i | 0 <= i < |p.tasks|
      ensures RowOk(fx, when, p.cursor, p.tasks[i]) && p.tasks[i].seqNo == i + 1
    {
      assert RowAt(fx, when, p.cursor, p.tasks, i);
    }
    forall i, j | 0 <= i <= j < |p.tasks|
      ensures Requests(p.tasks)[j].required !in Belady.Invalidated(Requests(p.tasks)[i])
    {
      forall v | v in Belady.Invalidated(Requests(p.tasks)[i])
        ensures v != p.tasks[j].required
      {
        assert Belady.ValidityChanged(v) in p.tasks[i].events;
        assert v in p.tasks[i].forbidden;
      }
    }
  }

  lemma BuiltSound(fx: Fixture, when: map<nat, nat>, k: nat, p: Progress)
    requires BuilderOk(fx, when, k, p)
    ensures forall i :: 0 <= i < |p.tasks| ==> FlagOk(p.tasks, i)
    ensures GoldActive(p.manifest, p.tasks) && SupersedesOnce(p.tasks)
    ensures NeverRevived(Requests(p.tasks)) && Belady.NoReturn(Requests(p.tasks))
  {
    BuiltFlags(fx, when, k, p);
    BuiltGoldActive(fx, when, k, p);
    BuiltSupersedesOnce(fx, when, k, p);
    BuiltNoReturn(fx, when, k, p);
  }

  // ----- the whole batch -----

  /** New-task versions that the sessions with these repeats take from the stable pool. */
  function Taken(repeats: seq<nat>, room: nat): int {
    if repeats == [] then 0 else Taken(repeats[..|repeats| - 1], room) + room - repeats[|repeats| - 1]
  }

  lemma {:induction false} TakenIs(repeats: seq<nat>, room: nat)
    ensures Taken(repeats, room) == |repeats| * room - Sum(repeats)
  {
    if repeats != [] {
      var n := |repeats| - 1;
      TakenIs(repeats[..n], room);
    }
  }

  lemma {:induction false} TakenGrows(repeats: seq<nat>, room: nat, k: nat)
    requires k <= |repeats| && forall i :: 0 <= i < |repeats| ==> repeats[i] <= room
    ensures Taken(repeats[..k], room) <= Taken(repeats, room)
    ensures k < |repeats| ==> Taken(repeats[..k + 1], room) == Taken(repeats[..k], room) + room - repeats[k]
  {
    if k == |repeats| {
      assert repeats[..k] == repeats;
    } else {
      var h := repeats[..|repeats| - 1];
      TakenGrows(h, room, k);
      assert h[..k] == repeats[..k];
      assert repeats[..k + 1][..k] == repeats[..k];
    }
  }

  datatype Result = Scheduled(tasks: seq<TaskRow>, manifest: Manifest, measured: real) | Rejected(failure: Failure)

  /** The registered reuse factors, in quarters; -1 for any other value. */
  function Quarters(reuse: real): int {
    if reuse == 0.0 then 0 else if reuse == 0.25 then 1 else if reuse == 0.5 then 2
    else if reuse == 0.75 then 3 else if reuse == 1.0 then 4 else -1
  }

  lemma RepeatsStep(repeats: seq<nat>, room: nat, k: nat)
    requires k < |repeats| && forall i :: 0 <= i < |repeats| ==> repeats[i] <= room
    ensures Taken(repeats[..k + 1], room) == Taken(repeats[..k], room) + room - repeats[k]
    ensures Taken(repeats[..k + 1], room) <= Taken(repeats, room)
    ensures Sum(repeats[..k + 1]) == Sum(repeats[..k]) + repeats[k]
  {
    TakenGrows(repeats, room, k);
    TakenGrows(repeats, room, k + 1);
    assert repeats[..k + 1][..k] == repeats[..k];
  }

  /** Between two sessions nothing has been reused, or superseded, in the one to come. */
  lemma ResetLaw(fx: Fixture, k: nat, p: Progress)
    requires k > 0 && LawOk(fx, k - 1, p) && SessionsSoFar(p.tasks, k - 1)
    ensures LawOk(fx, k, Reset(p))
  {
  }

  /** The reuse rows of the first k sessions are those allotted to them. */
  ghost predicate Repeated(tasks: seq<TaskRow>, repeats: seq<nat>, k: nat)
    requires k <= |repeats|
  {
    forall j: nat :: RepeatsIn(tasks, j) == if j < k then repeats[j] else 0
  }

  /** The builder after the first k sessions. */
  ghost predicate SessionsDone(fx: Fixture, when: map<nat, nat>, length: nat, repeats: seq<nat>, k: nat, p: Progress)
    requires length >= 1 && k <= |repeats|
  {
    && (if k == 0 then p == Reset(p) && when == map[] && BuilderOk(fx, when, 0, p) && LawOk(fx, 0, p)
        else BuilderOk(fx, when, k - 1, p) && LawOk(fx, k - 1, p))
    && Placed(p.tasks, length) && |p.tasks| == k * length
    && p.cursor == Taken(repeats[..k], length - 1)
    && ReuseCount(p.tasks) == Sum(repeats[..k])
    && Repeated(p.tasks, repeats, k)
  }

  method AddSession(fx: Fixture, length: nat, repeats: seq<nat>, k: nat, p: Progress, ghost when: map<nat, nat>)
    returns (failure: Option<Failure>, q: Progress, ghost when': map<nat, nat>)
    requires length >= 1 && k < |repeats| <= |fx.anchors|
    requires forall i :: 0 <= i < |repeats| ==> repeats[i] <= length - 1
    requires SessionsDone(fx, when, length, repeats, k, p)
    ensures failure.Some? <==> Taken(repeats[..k + 1], length - 1) > |fx.stable|
    ensures failure.Some? ==> failure == Some(IndexError)
    ensures failure.None? ==> SessionsDone(fx, when', length, repeats, k + 1, q)
  {
    RepeatsStep(repeats, length - 1, k);
    q := p;
    if k > 0 {
      q := Reset(p);
      ResetLaw(fx, k, p);
    }
    failure, q, when' := BuildSession(fx, length, k, repeats[k], q, when);
  }

  lemma AllSessions(fx: Fixture, when: map<nat, nat>, length: nat, repeats: seq<nat>, p: Progress)
    requires length >= 1 && repeats != [] && SessionsDone(fx, when, length, repeats, |repeats|, p)
    ensures BuilderOk(fx, when, |repeats| - 1, p)
    ensures Placed(p.tasks, length) && |p.tasks| == |repeats| * length
    ensures Lawful(fx, p.tasks) && Repeated(p.tasks, repeats, |repeats|)
    ensures ReuseCount(p.tasks) == Sum(repeats) && p.cursor == Taken(repeats, length - 1) <= |fx.stable|
  {
    assert repeats[..|repeats|] == repeats;
  }

  /** The sessions one after the other. */
  method BuildSessions(fx: Fixture, length: nat, repeats: seq<nat>)
    returns (failure: Option<Failure>, p: Progress, ghost when: map<nat, nat>)
    requires fx.WellFormed() && length >= 1 && 0 < |repeats| <= |fx.anchors|
    requires forall i :: 0 <= i < |repeats| ==> repeats[i] <= length - 1
    ensures failure.Some? <==> Taken(repeats, length - 1) > |fx.stable|
    ensures failure.Some? ==> failure == Some(IndexError)
    ensures failure.None? ==>
      && BuilderOk(fx, when, |repeats| - 1, p)
      && Placed(p.tasks, length) && |p.tasks| == |repeats| * length
      && ReuseCount(p.tasks) == Sum(repeats)
      && Lawful(fx, p.tasks) && Repeated(p.tasks, repeats, |repeats|)
  {
    p, when := Progress([], fx.manifest, 0, map[], [], false), map[];
    failure := None;
    for k := 0 to |repeats|
      invariant failure.None? && SessionsDone(fx, when, length, repeats, k, p)
    {
      failure, p, when := AddSession(fx, length, repeats, k, p, when);
      RepeatsStep(repeats, length - 1, k);
      if failure.Some? {
        return;
      }
    }
    AllSessions(fx, when, length, repeats, p);
  }

  /** What a finished schedule guarantees, beside its exact reuse count. */
  ghost predicate ScheduleOk(fx: Fixture, tasks: seq<TaskRow>, manifest: Manifest, length: nat) {
    && Placed(tasks, length)
    && Lawful(fx, tasks)
    && (forall i :: 0 <= i < |tasks| ==> FlagOk(tasks, i))
    && GoldActive(manifest, tasks)
    && SupersedesOnce(tasks)
    && NeverRevived(Requests(tasks)) && Belady.NoReturn(Requests(tasks))
  }

  lemma MeasuredExactly(repeats: nat, opportunities: nat, reuse: real)
    requires opportunities > 0 && Quarters(reuse) >= 0 && 4 * repeats == Quarters(reuse) * opportunities
    ensures repeats as real / opportunities as real == reuse
  {
    assert reuse == Quarters(reuse) as real / 4.0;
    var n, o := repeats as real, opportunities as real;
    assert 4.0 * n == Quarters(reuse) as real * o;
    assert n == reuse * o;
  }

  /** The sessions for a given allocation, and the final measurement of the reuse factor. */
  method BuildAllocated(fx: Fixture, length: nat, reuse: real, repeats: seq<nat>, opportunities: nat)
    returns (r: Result)
    requires fx.WellFormed() && length >= 1 && 0 < |repeats| <= |fx.anchors|
    requires forall i :: 0 <= i < |repeats| ==> repeats[i] <= length - 1
    requires opportunities == |repeats| * (length - 1)
    requires Quarters(reuse) >= 0 && 4 * Sum(repeats) == Quarters(reuse) * opportunities
    ensures r == Rejected(IndexError) <==> opportunities - Sum(repeats) > |fx.stable|
    ensures r == Rejected(DivisionByZero) <==> opportunities == 0
    ensures r.Rejected? ==> r.failure.IndexError? || r.failure.DivisionByZero?
    ensures r.Scheduled? ==>
      && r.measured == reuse && |r.tasks| == |repeats| * length && ReuseCount(r.tasks) == Sum(repeats)
      && Repeated(r.tasks, repeats, |repeats|)
      && ScheduleOk(fx, r.tasks, r.manifest, length)
  {
    TakenIs(repeats, length - 1);
    var failure, p;
    ghost var when;
    failure, p, when := BuildSessions(fx, length, repeats);
    if failure.Some? {
      return Rejected(failure.value);
    }
    if opportunities == 0 {
      return Rejected(DivisionByZero);
    }
    var measured := ReuseCount(p.tasks) as real / opportunities as real;
    MeasuredExactly(ReuseCount(p.tasks), opportunities, reuse);
    if measured != reuse {
      return Rejected(AssertionError);
    }
    BuiltSound(fx, when, |repeats| - 1, p);
    r := Scheduled(p.tasks, p.manifest, measured);
  }

  /** The repeats are spread evenly, and the first sessions get those that are left over. */
  ghost predicate EvenRepeats(tasks: seq<TaskRow>, total: nat, count: nat) {
    && count > 0
    && forall k: nat :: k < count ==> RepeatsIn(tasks, k) == total / count + if k < total % count then 1 else 0
  }

  /** As many rows supersede as sessions reuse anything: all of them, or as many as there are repeats. */
  ghost predicate SupersedesEach(tasks: seq<TaskRow>, count: nat) {
    && EvenRepeats(tasks, ReuseCount(tasks), count)
    && |Supersessions(tasks)| == if ReuseCount(tasks) < count then ReuseCount(tasks) else count
  }

  lemma {:induction false} InitialSegment(s: set<nat>, m: nat)
    requires forall k: nat :: k in s <==> k < m
    ensures |s| == m
  {
    if m > 0 {
      assert m - 1 in s;
      InitialSegment(s - {m - 1}, m - 1);
    } else {
      assert s == {};
    }
  }

  /** Sessions that reuse anything: all of them, or as many as there are repeats. */
  lemma SessionsThatReuse(tasks: seq<TaskRow>, total: nat, count: nat)
    requires count > 0 && Repeated(tasks, Shares(total, count), count)
    ensures |ReusedSessions(tasks)| == if total < count then total else count
    ensures EvenRepeats(tasks, total, count)
  {
    var repeats, m := Shares(total, count), if total < count then total else count;
    forall k: nat
      ensures k in ReusedSessions(tasks) <==> k < m
    {
      RepeatsPositive(tasks, k);
      DivMod(total, count);
      assert total / count > 0 <==> total >= count;
      assert RepeatsIn(tasks, k) == if k < count then repeats[k] else 0;
    }
    InitialSegment(ReusedSessions(tasks), m);
  }

  lemma EvenlySuperseded(fx: Fixture, tasks: seq<TaskRow>, total: nat, count: nat)
    requires Lawful(fx, tasks) && count > 0 && ReuseCount(tasks) == total
    requires Repeated(tasks, Shares(total, count), count)
    ensures SupersedesEach(tasks, count)
  {
    OneSupersessionEach(fx, tasks);
    SessionsThatReuse(tasks, total, count);
  }

  lemma NegativeRoom(count: nat, room: int)
    requires count > 0 && room < 0
    ensures count * room < 0
  {
  }

  lemma NoOpportunity(count: nat, room: nat)
    requires count > 0
    ensures count * room == 0 <==> room == 0
  {
  }

  lemma Shortage(quarters: nat, opportunities: nat, repeats: nat, pool: nat)
    requires quarters <= 4 && 4 * repeats == quarters * opportunities
    ensures opportunities - repeats > pool <==> (4 - quarters) * opportunities > 4 * pool
  {
    assert (4 - quarters) * opportunities == 4 * opportunities - quarters * opportunities;
  }

  /** Sessions of length below one have no task: nothing is reused, and the rate over all tasks divides by zero. */
  method MeasureEmpty(opportunities: int, reuse: real) returns (failure: Failure)
    requires opportunities < 0
    ensures failure == if reuse == 0.0 then DivisionByZero else AssertionError
  {
    var measured := 0.0 / opportunities as real;
    if measured != reuse {
      return AssertionError;
    }
    failure := DivisionByZero;
  }

  /** The parameters that pass the initial checks. */
  predicate Registered(fx: Fixture, reuse: real, count: int) {
    Quarters(reuse) >= 0 && 0 < count <= |fx.anchors| && count % 4 == 0
  }

  /**
   * build_reuse_schedule on a shuffled corpus. With sessions of at least one task an AssertionError is never raised:
   * the sessions represent the requested factor, reuse tasks find earlier gold, and new tasks never do.
   */
  method Build(fx: Fixture, length: int, reuse: real, count: int) returns (r: Result)
    requires fx.WellFormed()
    ensures r == Rejected(ValueError) <==> !Registered(fx, reuse, count)
    ensures r == Rejected(AssertionError) <==> Registered(fx, reuse, count) && length < 1 && reuse != 0.0
    ensures r == Rejected(DivisionByZero) <==>
      Registered(fx, reuse, count) && (length == 1 || (length < 1 && reuse == 0.0))
    ensures r == Rejected(IndexError) <==>
      && Registered(fx, reuse, count) && length > 1
      && (4 - Quarters(reuse)) * (count * (length - 1)) > 4 * |fx.stable|
    ensures r.Scheduled? ==>
      && length > 1
      && r.measured == reuse
      && |r.tasks| == count * length
      && 4 * ReuseCount(r.tasks) == Quarters(reuse) * (count * (length - 1))
      && SupersedesEach(r.tasks, count)
      && ScheduleOk(fx, r.tasks, r.manifest, length)
  {
    var quarters := Quarters(reuse);
    if quarters < 0 || count <= 0 || count % 4 != 0 || count > |fx.anchors| {
      return Rejected(ValueError);
    }
    if length < 1 {
      NegativeRoom(count, length - 1);
      var failure := MeasureEmpty(count * (length - 1), reuse);
      return Rejected(failure);
    }
    var repeats := RepeatAllocation(quarters, length, count);
    AllocationExact(quarters, length, count);
    if repeats.None? {
      return Rejected(AssertionError);
    }
    var opportunities := count * (length - 1);
    NoOpportunity(count, length - 1);
    Shortage(quarters, opportunities, Sum(repeats.value), |fx.stable|);
    r := BuildAllocated(fx, length, reuse, repeats.value, opportunities);
    if r.Scheduled? {
      EvenlySuperseded(fx, r.tasks, Sum(repeats.value), count);
    }
  }
}
