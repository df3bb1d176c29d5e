/** The run loop on a log: each of its runs, whatever came before it, is a run of the crash-and-resume machine. */
module LoggedRun {
  import opened Collections
  import opened Checkpoint
  import Crash = CrashResume
  import Loop = RunLoop

  /** One step per outcome; the row of the first one is lost when the log ends in a torn line. */
  function Executions(pending: seq<Unit>, trace: seq<Loop.Event>, torn: bool): seq<Crash.Step> {
    if trace == [] then []
    else
      var h, e := Executions(pending, trace[..|trace| - 1], torn), trace[|trace| - 1];
      if e.Finish? && e.u < |pending| then h + [Crash.Execute(pending[e.u], e.failure, torn && h == [])] else h
  }

  /** The pending units at the positions that are not settled, repetitions included. */
  function Remaining(pending: seq<Unit>, done: set<nat>): multiset<Unit> {
    if pending == [] then multiset{}
    else
      var n := |pending| - 1;
      Remaining(pending[..n], done) + if n in done then multiset{} else multiset{pending[n]}
  }

  lemma {:induction false} RemainingAll(pending: seq<Unit>)
    ensures Remaining(pending, {}) == multiset(pending)
  {
    if pending != [] {
      var n := |pending| - 1;
      RemainingAll(pending[..n]);
      assert pending == pending[..n] + [pending[n]];
    }
  }

  lemma {:induction false} RemainingBeyond(pending: seq<Unit>, done: set<nat>, u: nat)
    requires u >= |pending|
    ensures Remaining(pending, done + {u}) == Remaining(pending, done)
  {
    if pending != [] {
      RemainingBeyond(pending[..|pending| - 1], done, u);
    }
  }

  /** Settling a position takes one entry of its unit. */
  lemma {:induction false} RemainingLess(pending: seq<Unit>, done: set<nat>, u: nat)
    requires u < |pending| && u !in done
    ensures pending[u] in Remaining(pending, done)
    ensures Remaining(pending, done + {u}) == Remaining(pending, done) - multiset{pending[u]}
  {
    var n := |pending| - 1;
    if u == n {
      RemainingBeyond(pending[..n], done, n);
    } else {
      RemainingLess(pending[..n], done, u);
    }
  }

  /** A resumed world and the loop agree: what may still be executed are the pending units that are not settled. */
  ghost predicate Agree(pending: seq<Unit>, s: Loop.State, w: Crash.World) {
    w.running && w.todo == Remaining(pending, s.done)
  }

  lemma FinishAgrees(cfg: Loop.Config, s: Loop.State, e: Loop.Event, pending: seq<Unit>, w: Crash.World,
                     units: seq<Unit>, runId: Unit -> RunId, glued: bool)
    requires Loop.Conserved(cfg.units, s) && cfg.units == |pending| && Agree(pending, s, w)
    requires e.Finish? && Loop.Next(cfg, s, e).Some?
    requires glued ==> w.log != [] && w.log[|w.log| - 1] == Torn
    ensures e.u < |pending|
    ensures var v := Crash.Next(w, units, runId, Crash.Execute(pending[e.u], e.failure, glued));
      v.Some? && Agree(pending, Loop.Next(cfg, s, e).value, v.value)
  {
    RemainingLess(pending, s.done, e.u);
  }

  /** Submissions, windows and giving up settle nothing. */
  lemma QuietEvent(cfg: Loop.Config, s: Loop.State, e: Loop.Event)
    requires !e.Finish? && Loop.Next(cfg, s, e).Some?
    ensures Loop.Next(cfg, s, e).value.done == s.done
  {
  }

  /** The resumed machine after these executions agrees with the loop in state s; log is what the resume read. */
  ghost predicate Follows(w0: Crash.World, units: seq<Unit>, runId: Unit -> RunId, resumed: seq<Crash.Step>,
                          done: seq<Crash.Step>, log: seq<Line>, pending: seq<Unit>, s: Loop.State) {
    var v := Crash.Play(w0, units, runId, resumed + done);
    v.Some? && Agree(pending, s, v.value) && (done == [] ==> v.value.log == log)
  }

  lemma FollowsResume(cfg: Loop.Config, windows: nat, aborted: Option<Loop.Abort>, w0: Crash.World, units: seq<Unit>,
                      runId: Unit -> RunId, before: seq<Crash.Step>)
    requires Crash.Play(w0, units, runId, before).Some? && !Crash.Play(w0, units, runId, before).value.running
    ensures var log := Crash.Play(w0, units, runId, before).value.log;
      Follows(w0, units, runId, before + [Crash.Resume], [], log, Pending(Completed(Rows(log)), units, runId),
              Loop.Start(cfg, windows, aborted))
  {
    Crash.PlaySnoc(w0, units, runId, before, Crash.Resume);
    var log := Crash.Play(w0, units, runId, before).value.log;
    RemainingAll(Pending(Completed(Rows(log)), units, runId));
    assert before + [Crash.Resume] + [] == before + [Crash.Resume];
  }

  lemma FollowsFinish(cfg: Loop.Config, s: Loop.State, e: Loop.Event, w0: Crash.World, units: seq<Unit>,
                      runId: Unit -> RunId, resumed: seq<Crash.Step>, done: seq<Crash.Step>, log: seq<Line>,
                      pending: seq<Unit>, glued: bool)
    requires Follows(w0, units, runId, resumed, done, log, pending, s)
    requires Loop.Conserved(cfg.units, s) && cfg.units == |pending|
    requires e.Finish? && Loop.Next(cfg, s, e).Some?
    requires glued ==> done == [] && log != [] && log[|log| - 1] == Torn
    ensures e.u < |pending|
    ensures Follows(w0, units, runId, resumed, done + [Crash.Execute(pending[e.u], e.failure, glued)], log, pending,
                    Loop.Next(cfg, s, e).value)
  {
    var v := Crash.Play(w0, units, runId, resumed + done).value;
    FinishAgrees(cfg, s, e, pending, v, units, runId, glued);
    var step := Crash.Execute(pending[e.u], e.failure, glued);
    Crash.PlaySnoc(w0, units, runId, resumed + done, step);
    assert resumed + (done + [step]) == resumed + done + [step];
  }

  /**
   * Resume after any history that ends without an active run, then any run of the loop over the pending units. Each
   * outcome of the loop is an execution that the machine allows, so what holds of all its runs holds of the loop.
   */
  lemma {:induction false} RunIsResumed(cfg: Loop.Config, windows: nat, aborted: Option<Loop.Abort>,
                                        trace: seq<Loop.Event>, w0: Crash.World, units: seq<Unit>,
                                        runId: Unit -> RunId, before: seq<Crash.Step>, torn: bool)
    requires Crash.Play(w0, units, runId, before).Some?
    requires var w := Crash.Play(w0, units, runId, before).value;
      && !w.running && (torn ==> w.log != [] && w.log[|w.log| - 1] == Torn)
      && cfg.units == |Pending(Completed(Rows(w.log)), units, runId)|
    requires Loop.Replay(cfg, Loop.Start(cfg, windows, aborted), trace).Some?
    ensures var log := Crash.Play(w0, units, runId, before).value.log;
      var pending := Pending(Completed(Rows(log)), units, runId);
      Follows(w0, units, runId, before + [Crash.Resume], Executions(pending, trace, torn), log, pending,
              Loop.Replay(cfg, Loop.Start(cfg, windows, aborted), trace).value)
  {
    var log := Crash.Play(w0, units, runId, before).value.log;
    var pending := Pending(Completed(Rows(log)), units, runId);
    var s0 := Loop.Start(cfg, windows, aborted);
    if trace == [] {
      FollowsResume(cfg, windows, aborted, w0, units, runId, before);
    } else {
      var h, e := trace[..|trace| - 1], trace[|trace| - 1];
      RunIsResumed(cfg, windows, aborted, h, w0, units, runId, before, torn);
      var s, done := Loop.Replay(cfg, s0, h).value, Executions(pending, h, torn);
      if e.Finish? {
        var _ := Loop.RunSafe(cfg, windows, aborted, h);
        FollowsFinish(cfg, s, e, w0, units, runId, before + [Crash.Resume], done, log, pending, torn && done == []);
      } else {
        QuietEvent(cfg, s, e);
      }
    }
  }

  /** A run of the loop over what a history left pending, up to the outcome that it reports next. */
  datatype Scene = Scene(cfg: Loop.Config, windows: nat, aborted: Option<Loop.Abort>, trace: seq<Loop.Event>,
                         e: Loop.Event, log0: seq<Line>, before: seq<Crash.Step>, torn: bool)

  ghost function LeftPending(x: Scene, units: seq<Unit>, runId: Unit -> RunId): seq<Unit>
    requires Crash.Play(Crash.Stopped(x.log0), units, runId, x.before).Some?
  {
    Pending(Completed(Rows(Crash.Play(Crash.Stopped(x.log0), units, runId, x.before).value.log)), units, runId)
  }

  /** No run is active, and a row is lost only on a torn line. */
  predicate Resumable(w: Crash.World, torn: bool) {
    !w.running && (torn ==> w.log != [] && w.log[|w.log| - 1] == Torn)
  }

  ghost predicate Possible(x: Scene, units: seq<Unit>, runId: Unit -> RunId) {
    && Crash.Play(Crash.Stopped(x.log0), units, runId, x.before).Some?
    && Resumable(Crash.Play(Crash.Stopped(x.log0), units, runId, x.before).value, x.torn)
    && x.cfg.units == |LeftPending(x, units, runId)|
    && Loop.Replay(x.cfg, Loop.Start(x.cfg, x.windows, x.aborted), x.trace).Some?
    && x.e.Finish?
    && Loop.Next(x.cfg, Loop.Replay(x.cfg, Loop.Start(x.cfg, x.windows, x.aborted), x.trace).value, x.e).Some?
  }

  /** The world in which the outcome is reported. */
  ghost function Reached(x: Scene, units: seq<Unit>, runId: Unit -> RunId): Option<Crash.World>
    requires Possible(x, units, runId)
  {
    Crash.Play(Crash.Stopped(x.log0), units, runId,
               x.before + [Crash.Resume] + Executions(LeftPending(x, units, runId), x.trace, x.torn))
  }

  /** The loop reports u although the log so far shows u complete. */
  ghost predicate ReportsInVain(x: Scene, units: seq<Unit>, runId: Unit -> RunId, u: Unit) {
    && Possible(x, units, runId) && x.e.u < |LeftPending(x, units, runId)|
    && LeftPending(x, units, runId)[x.e.u] == u
    && Reached(x, units, runId).Some? && runId(u) in Completed(Rows(Reached(x, units, runId).value.log))
  }

  /** When the loop reports a unit that the schedule lists once, the log so far has no complete latest row of it. */
  lemma LoopExecutesIncomplete(x: Scene, units: seq<Unit>, runId: Unit -> RunId)
    requires Crash.Identified(units, runId) && Possible(x, units, runId)
    ensures x.e.u < |LeftPending(x, units, runId)| && Reached(x, units, runId).Some?
    ensures var u := LeftPending(x, units, runId)[x.e.u];
      Crash.Once(units, u) ==> runId(u) !in Completed(Rows(Reached(x, units, runId).value.log))
  {
    var w0, pending := Crash.Stopped(x.log0), LeftPending(x, units, runId);
    var s := Loop.Replay(x.cfg, Loop.Start(x.cfg, x.windows, x.aborted), x.trace).value;
    RunIsResumed(x.cfg, x.windows, x.aborted, x.trace, w0, units, runId, x.before, x.torn);
    var _ := Loop.RunSafe(x.cfg, x.windows, x.aborted, x.trace);
    RemainingLess(pending, s.done, x.e.u);
    Crash.PlayKeeps(w0, units, runId, x.before + [Crash.Resume] + Executions(pending, x.trace, x.torn));
  }

  // ----- a schedule that repeats a unit -----

  function Submissions(k: nat): seq<Loop.Event> {
    if k == 0 then [] else Submissions(k - 1) + [Loop.Submit(k - 1)]
  }

  /** The first k units of a fresh run are in flight. */
  ghost predicate InFlightUpTo(cfg: Loop.Config, s: Loop.State, k: nat)
    requires k <= cfg.units
  {
    && s.queue == Loop.Positions(k, cfg.units) && s.done == {} && s.aborted.None? && !s.stopSubmitting
    && |s.inFlight| == k && forall u: nat :: u in s.inFlight <==> u < k
  }

  lemma SubmitNext(cfg: Loop.Config, s: Loop.State, k: nat)
    requires k < cfg.units <= cfg.concurrency && InFlightUpTo(cfg, s, k)
    ensures Loop.Next(cfg, s, Loop.Submit(k)).Some?
    ensures InFlightUpTo(cfg, Loop.Next(cfg, s, Loop.Submit(k)).value, k + 1)
  {
    assert Loop.Positions(k, cfg.units)[1..] == Loop.Positions(k + 1, cfg.units);
  }

  lemma {:induction false} SubmissionsReplay(cfg: Loop.Config, k: nat)
    requires k <= cfg.units <= cfg.concurrency
    ensures var s := Loop.Replay(cfg, Loop.Start(cfg, 0, None), Submissions(k));
      s.Some? && InFlightUpTo(cfg, s.value, k)
  {
    if k > 0 {
      SubmissionsReplay(cfg, k - 1);
      var s0 := Loop.Start(cfg, 0, None);
      SubmitNext(cfg, Loop.Replay(cfg, s0, Submissions(k - 1)).value, k - 1);
      Loop.ReplaySnoc(cfg, s0, Submissions(k - 1), Loop.Submit(k - 1));
    }
  }

  lemma {:induction false} NoOutcome(pending: seq<Unit>, k: nat)
    ensures Executions(pending, Submissions(k), false) == []
  {
    if k > 0 {
      NoOutcome(pending, k - 1);
      assert Submissions(k)[..|Submissions(k)| - 1] == Submissions(k - 1);
    }
  }

  lemma {:induction false} WholeSchedule(units: seq<Unit>, runId: Unit -> RunId)
    ensures Pending({}, units, runId) == units
  {
    if units != [] {
      WholeSchedule(units[..|units| - 1], runId);
    }
  }

  /** A first run that has everything in flight and has just reported unit i, when unit j reports. */
  function BothInFlight(n: nat, i: nat, j: nat): Scene {
    Scene(Loop.Config(n, n, 1), 0, None, Submissions(n) + [Loop.Finish(i, Loop.Ok, true)],
          Loop.Finish(j, Loop.Ok, true),
          [], [], false)
  }

  lemma BothReport(n: nat, i: nat, j: nat)
    requires i < j < n
    ensures var x := BothInFlight(n, i, j);
      var s := Loop.Replay(x.cfg, Loop.Start(x.cfg, x.windows, x.aborted), x.trace);
      s.Some? && Loop.Next(x.cfg, s.value, x.e).Some?
  {
    var x := BothInFlight(n, i, j);
    SubmissionsReplay(x.cfg, n);
    Loop.ReplaySnoc(x.cfg, Loop.Start(x.cfg, 0, None), Submissions(n), Loop.Finish(i, Loop.Ok, true));
  }

  lemma BothInFlightPossible(units: seq<Unit>, runId: Unit -> RunId, i: nat, j: nat)
    requires i < j < |units|
    ensures var x := BothInFlight(|units|, i, j);
      Possible(x, units, runId) && LeftPending(x, units, runId) == units
  {
    Crash.AllPending(units, runId);
    WholeSchedule(units, runId);
    BothReport(|units|, i, j);
  }

  lemma BothInFlightReached(units: seq<Unit>, runId: Unit -> RunId, i: nat, j: nat)
    requires i < j < |units|
    ensures var x := BothInFlight(|units|, i, j);
      && Possible(x, units, runId)
      && Reached(x, units, runId) ==
         Some(Crash.World([Crash.RowOf(units[i], Loop.Ok, runId)], true, multiset(units) - multiset{units[i]}))
  {
    var x, run := BothInFlight(|units|, i, j), Crash.Execute(units[i], Loop.Ok, false);
    BothInFlightPossible(units, runId, i, j);
    NoOutcome(units, |units|);
    assert x.trace[..|x.trace| - 1] == Submissions(|units|);
    assert Executions(units, x.trace, false) == [] + [run];
    assert [] + [Crash.Resume] + ([] + [run]) == [Crash.Resume, run];
    Crash.FirstExecution(units, runId, units[i]);
  }

  lemma {:induction false} TwoPlaces(units: seq<Unit>, u: Unit) returns (i: nat, j: nat)
    requires multiset(units)[u] >= 2
    ensures i < j < |units| && units[i] == units[j] == u
  {
    var n := |units| - 1;
    assert units == units[..n] + [units[n]];
    if units[n] == u {
      assert u in multiset(units[..n]);
      i :| 0 <= i < n && units[..n][i] == u;
      j := n;
    } else {
      i, j := TwoPlaces(units[..n], u);
    }
  }

  /** No run of the loop ever reports u in vain exactly if the schedule lists u once. */
  lemma InVainIffRepeated(units: seq<Unit>, runId: Unit -> RunId, u: Unit)
    requires Crash.Identified(units, runId) && u in units
    ensures (forall x :: !ReportsInVain(x, units, runId, u)) <==> Crash.Once(units, u)
  {
    if Crash.Once(units, u) {
      forall x | Possible(x, units, runId)
        ensures !ReportsInVain(x, units, runId, u)
      {
        LoopExecutesIncomplete(x, units, runId);
      }
    } else {
      assert u in multiset(units);
      var i, j := TwoPlaces(units, u);
      BothInFlightPossible(units, runId, i, j);
      BothInFlightReached(units, runId, i, j);
      Crash.FirstRow(units, runId, u);
      assert ReportsInVain(BothInFlight(|units|, i, j), units, runId, u);
    }
  }
}
