/** RunLoop.run itself, with arbitrary outcomes, completion order, caller decisions and probe results. */
module RunLoopExecutor {
  import opened Collections
  import opened RunLoop

  datatype StopReason = LimitReached | Drained | Aborted(reason: Abort)

  datatype Window = Window(index: nat, stopReason: Option<StopReason>, probeAttempts: nat)

  /** The variables of one window: the unit queue, the futures, the limit hits and the submission flag. */
  datatype Pool = Pool(queue: seq<nat>, inFlight: set<nat>, limitHits: seq<nat>, stopSubmitting: bool)

  /** What probe number j after window k would see: whether the limit is lifted. */
  type Lifted = (nat, nat) -> bool

  ghost predicate LiftedAfter(lifted: Lifted, k: nat) {
    exists j: nat :: j < 3 && lifted(k, j)
  }

  /** Probe number probes is the first to see the limit lifted, or the third in vain. */
  ghost predicate ProbedTo(lifted: Lifted, k: nat, probes: nat) {
    && 1 <= probes <= 3
    && (forall j: nat :: j < probes - 1 ==> !lifted(k, j))
    && (lifted(k, probes - 1) || probes == 3)
  }

  /** Window i ended in a usage limit, and one of its probes, the last one made, saw the limit lifted. */
  ghost predicate Reopened(lifted: Lifted, i: nat, w: Window) {
    && w.index == i && w.stopReason == Some(LimitReached)
    && LiftedAfter(lifted, i) && ProbedTo(lifted, i, w.probeAttempts)
  }

  /** The pool is full, or nothing may or can be submitted. */
  ghost predicate Saturated(concurrency: int, s: State) {
    |s.inFlight| >= concurrency || s.queue == [] || s.stopSubmitting
  }

  ghost predicate WaitAt(cfg: Config, s0: State, trace: seq<Event>, at: nat) {
    && at <= |trace| && Replay(cfg, s0, trace[..at]).Some?
    && Saturated(cfg.concurrency, Replay(cfg, s0, trace[..at]).value)
  }

  ghost predicate ReportedFrom(trace: seq<Event>, at: nat, i: nat)
    requires i < |trace|
  {
    at <= i && forall j :: at <= j < i ==> trace[j].Finish?
  }

  /** Outcomes are reported in batches, and the pool is saturated whenever the loop waits for the next batch. */
  ghost predicate Rolling(cfg: Config, s0: State, trace: seq<Event>, waits: seq<nat>) {
    && (forall k :: 0 <= k < |waits| ==> WaitAt(cfg, s0, trace, waits[k]))
    && forall i :: 0 <= i < |trace| && trace[i].Finish? ==>
         exists k :: 0 <= k < |waits| && ReportedFrom(trace, waits[k], i)
  }

  lemma WaitStays(cfg: Config, s0: State, trace: seq<Event>, more: seq<Event>, at: nat)
    requires trace <= more && WaitAt(cfg, s0, trace, at)
    ensures WaitAt(cfg, s0, more, at)
  {
    assert more[..at] == trace[..at];
  }

  lemma ReportedStays(trace: seq<Event>, more: seq<Event>, at: nat, i: nat)
    requires trace <= more && i < |trace| && ReportedFrom(trace, at, i)
    ensures ReportedFrom(more, at, i)
  {
  }

  /** Events that report no outcome need no wait. */
  lemma RollsQuietly(cfg: Config, s0: State, trace: seq<Event>, more: seq<Event>, waits: seq<nat>)
    requires Rolling(cfg, s0, trace, waits) && trace <= more
    requires forall i :: |trace| <= i < |more| ==> !more[i].Finish?
    ensures Rolling(cfg, s0, more, waits)
  {
    forall k | 0 <= k < |waits|
      ensures WaitAt(cfg, s0, more, waits[k])
    {
      WaitStays(cfg, s0, trace, more, waits[k]);
    }
    forall i | 0 <= i < |more| && more[i].Finish?
      ensures exists k :: 0 <= k < |waits| && ReportedFrom(more, waits[k], i)
    {
      var k :| 0 <= k < |waits| && ReportedFrom(trace, waits[k], i);
      ReportedStays(trace, more, waits[k], i);
    }
  }

  lemma RollsOver(cfg: Config, s0: State, trace: seq<Event>, waits: seq<nat>)
    requires Rolling(cfg, s0, trace, waits)
    ensures forall e: Event :: !e.Finish? ==> Rolling(cfg, s0, trace + [e], waits)
  {
    forall e: Event | !e.Finish?
      ensures Rolling(cfg, s0, trace + [e], waits)
    {
      RollsQuietly(cfg, s0, trace, trace + [e], waits);
    }
  }

  /** A wait on a saturated pool and the outcomes it brings. */
  lemma RollsOn(cfg: Config, s0: State, trace: seq<Event>, more: seq<Event>, waits: seq<nat>)
    requires Rolling(cfg, s0, trace, waits) && trace <= more
    requires Replay(cfg, s0, trace).Some? && Saturated(cfg.concurrency, Replay(cfg, s0, trace).value)
    requires forall i :: |trace| <= i < |more| ==> more[i].Finish?
    ensures Rolling(cfg, s0, more, waits + [|trace|])
  {
    var all := waits + [|trace|];
    assert more[..|trace|] == trace;
    forall k | 0 <= k < |all|
      ensures WaitAt(cfg, s0, more, all[k])
    {
      if k < |waits| {
        WaitStays(cfg, s0, trace, more, waits[k]);
      }
    }
    forall i | 0 <= i < |more| && more[i].Finish?
      ensures exists k :: 0 <= k < |all| && ReportedFrom(more, all[k], i)
    {
      if i < |trace| {
        var k :| 0 <= k < |waits| && ReportedFrom(trace, waits[k], i);
        ReportedStays(trace, more, waits[k], i);
        assert all[k] == waits[k];
      } else {
        assert all[|waits|] == |trace|;
      }
    }
  }

  class Executor {
    const units: nat
    const concurrency: int
    const maxWindows: int
    var windows: seq<Window>
    var aborted: Option<Abort>

    constructor (units: nat, concurrency: int, maxWindows: int)
      ensures this.units == units && this.concurrency == concurrency && this.maxWindows == maxWindows
      ensures windows == [] && aborted == None
    {
      this.units, this.concurrency, this.maxWindows := units, concurrency, maxWindows;
      windows, aborted := [], None;
    }

    function Cfg(): Config {
      Config(units, concurrency, maxWindows)
    }

    /** The trace so far is allowed by the rules and leads to the values of the variables. */
    ghost predicate Follows(s0: State, trace: seq<Event>, pool: Pool)
      reads this`aborted
    {
      && Replay(Cfg(), s0, trace).Some?
      && var s := Replay(Cfg(), s0, trace).value;
         && Conserved(units, s)
         && s.queue == pool.queue && s.inFlight == pool.inFlight && s.limitHits == pool.limitHits
         && s.stopSubmitting == pool.stopSubmitting && s.aborted == aborted
    }

    ghost function WindowsOf(s0: State, trace: seq<Event>): nat
    {
      if Replay(Cfg(), s0, trace).Some? then Replay(Cfg(), s0, trace).value.windows else 0
    }

    lemma Extend(s0: State, trace: seq<Event>, e: Event)
      requires Replay(Cfg(), s0, trace).Some? && Conserved(units, Replay(Cfg(), s0, trace).value)
      requires Next(Cfg(), Replay(Cfg(), s0, trace).value, e).Some?
      ensures Replay(Cfg(), s0, trace + [e]) == Next(Cfg(), Replay(Cfg(), s0, trace).value, e)
      ensures Conserved(units, Replay(Cfg(), s0, trace + [e]).value)
    {
      ReplaySnoc(Cfg(), s0, trace, e);
      StepConserves(Cfg(), Replay(Cfg(), s0, trace).value, e);
    }

    /** Submits from the front of the queue until the pool holds limit units or the queue is empty. */
    method Fill(ghost s0: State, pool0: Pool, limit: int, ghost trace0: seq<Event>)
      returns (pool: Pool, ghost trace: seq<Event>)
      requires limit <= concurrency && aborted.None? && !pool0.stopSubmitting
      requires Follows(s0, trace0, pool0)
      ensures Follows(s0, trace, pool) && WindowsOf(s0, trace) == WindowsOf(s0, trace0)
      ensures pool == pool0.(queue := pool.queue, inFlight := pool.inFlight)
      ensures |pool.inFlight| >= limit || pool.queue == []
      ensures |pool.queue| + |pool.inFlight| == |pool0.queue| + |pool0.inFlight|
      ensures trace0 <= trace && forall i :: |trace0| <= i < |trace| ==> trace[i].Submit?
    {
      pool, trace := pool0, trace0;
      while |pool.inFlight| < limit && pool.queue != []
        invariant Follows(s0, trace, pool) && WindowsOf(s0, trace) == WindowsOf(s0, trace0)
        invariant pool == pool0.(queue := pool.queue, inFlight := pool.inFlight)
        invariant |pool.queue| + |pool.inFlight| == |pool0.queue| + |pool0.inFlight|
        invariant trace0 <= trace && forall i :: |trace0| <= i < |trace| ==> trace[i].Submit?
        decreases |pool.queue|
      {
        var u := pool.queue[0];
        assert u !in pool.inFlight;
        Extend(s0, trace, Submit(u));
        trace := trace + [Submit(u)];
        pool := pool.(queue := pool.queue[1..], inFlight := pool.inFlight + {u});
      }
    }

    /** One outcome: a usage limit is remembered for requeueing, and it or the caller stops submission. */
    method ReportOne(ghost s0: State, pool0: Pool, u: nat, failure: FailureClass, keepGoing: bool,
                     ghost trace0: seq<Event>)
      returns (pool: Pool, ghost trace: seq<Event>)
      requires u in pool0.inFlight && Follows(s0, trace0, pool0) && StopFlag(pool0)
      modifies this`aborted
      ensures Follows(s0, trace, pool) && WindowsOf(s0, trace) == WindowsOf(s0, trace0) && StopFlag(pool)
      ensures pool.queue == pool0.queue && pool.inFlight == pool0.inFlight - {u}
      ensures trace == trace0 + [Finish(u, failure, keepGoing)]
    {
      pool := pool0;
      ghost var e := Finish(u, failure, keepGoing);
      Extend(s0, trace0, e);
      trace := trace0 + [e];
      pool := pool.(inFlight := pool.inFlight - {u});
      if failure == UsageLimit {
        pool := pool.(limitHits := pool.limitHits + [u], stopSubmitting := true);
      }
      if !keepGoing {
        aborted := if aborted.Some? then aborted else Some(CallerStop);
        pool := pool.(stopSubmitting := true);
      }
    }

    ghost predicate StopFlag(pool: Pool)
      reads this`aborted
    {
      && (pool.stopSubmitting <==> pool.limitHits != [] || aborted.Some?)
      && (aborted.Some? ==> aborted == Some(CallerStop))
    }

    /** Reports the outcomes of the finished futures, in any order. */
    method Report(ghost s0: State, pool0: Pool, finished0: set<nat>, ghost trace0: seq<Event>)
      returns (pool: Pool, ghost trace: seq<Event>)
      requires finished0 <= pool0.inFlight && Follows(s0, trace0, pool0) && StopFlag(pool0)
      modifies this`aborted
      ensures Follows(s0, trace, pool) && WindowsOf(s0, trace) == WindowsOf(s0, trace0) && StopFlag(pool)
      ensures pool.queue == pool0.queue && pool.inFlight == pool0.inFlight - finished0
      ensures trace0 <= trace && forall i :: |trace0| <= i < |trace| ==> trace[i].Finish?
    {
      pool, trace := pool0, trace0;
      var finished := finished0;
      while finished != {}
        invariant finished <= finished0
        invariant Follows(s0, trace, pool) && WindowsOf(s0, trace) == WindowsOf(s0, trace0) && StopFlag(pool)
        invariant pool.queue == pool0.queue && pool.inFlight == pool0.inFlight - (finished0 - finished)
        invariant trace0 <= trace && forall i :: |trace0| <= i < |trace| ==> trace[i].Finish?
        decreases |finished|
      {
        var u :| u in finished;
        finished := finished - {u};
        var failure: FailureClass := *;
        var keepGoing: bool := *;
        pool, trace := ReportOne(s0, pool, u, failure, keepGoing, trace);
      }
      assert finished0 - finished == finished0;
    }

    /** One window: fills the pool, then waits, reports and refills until no future is left. */
    method ExecuteWindow(ghost s0: State, queue: seq<nat>, ghost trace0: seq<Event>, ghost waits0: seq<nat>)
      returns (pool: Pool, ghost trace: seq<Event>, ghost waits: seq<nat>)
      requires concurrency >= 1 && aborted.None? && queue != []
      requires Follows(s0, trace0, Pool(queue, {}, [], false)) && Rolling(Cfg(), s0, trace0, waits0)
      modifies this`aborted
      ensures Rolling(Cfg(), s0, trace, waits)
      ensures Follows(s0, trace, pool) && WindowsOf(s0, trace) == WindowsOf(s0, trace0)
      ensures pool.inFlight == {}
      ensures aborted.Some? ==> aborted == Some(CallerStop)
      ensures aborted.None? && pool.limitHits == [] ==> pool.queue == []
    {
      pool := Pool(queue, {}, [], false);
      var first := if concurrency < |queue| then concurrency else |queue|;
      pool, trace := Fill(s0, pool, first, trace0);
      waits := waits0;
      RollsQuietly(Cfg(), s0, trace0, trace, waits);
      while pool.inFlight != {}
        invariant Rolling(Cfg(), s0, trace, waits)
        invariant |pool.inFlight| >= concurrency || pool.queue == [] || pool.stopSubmitting
        invariant Follows(s0, trace, pool) && WindowsOf(s0, trace) == WindowsOf(s0, trace0)
        invariant StopFlag(pool)
        invariant pool.inFlight == {} && !pool.stopSubmitting ==> pool.queue == []
        decreases |pool.queue| + |pool.inFlight|
      {
        var finished: set<nat> := *;
        if finished == {} || !(finished <= pool.inFlight) {
          finished := pool.inFlight;
        }
        ghost var before, reported := pool, trace;
        pool, trace := Report(s0, pool, finished, trace);
        RollsOn(Cfg(), s0, reported, trace, waits);
        waits := waits + [|reported|];
        assert |pool.inFlight| < |before.inFlight| by {
          var u :| u in finished;
          SubsetCardinality(pool.inFlight, before.inFlight - {u});
        }
        if !pool.stopSubmitting {
          reported := trace;
          pool, trace := Fill(s0, pool, concurrency, trace);
          RollsQuietly(Cfg(), s0, reported, trace, waits);
        }
      }
    }

    /** Probes after window k until one sees the limit lifted, at most three times. */
    method Probe(lifted: Lifted, k: nat) returns (recovered: bool, probes: nat)
      ensures recovered <==> LiftedAfter(lifted, k)
      ensures ProbedTo(lifted, k, probes)
    {
      probes := 0;
      while true
        invariant probes < 3 && forall i :: 0 <= i < probes ==> !lifted(k, i)
        decreases 3 - probes
      {
        probes := probes + 1;
        recovered := lifted(k, probes - 1);
        if recovered || probes >= 3 {
          return;
        }
      }
    }

    /**
     * How the last window reads once the loop has ended: three probes in vain, no probe at the bound on windows, or no
     * transition at all.
     */
    ghost predicate LastClosed(lifted: Lifted)
      requires windows != []
      reads this
    {
      var k := |windows| - 1;
      windows[k] == match aborted
                    case None => Window(k, Some(Drained), 0)
                    case Some(MaxWindows) => Window(k, Some(LimitReached), 0)
                    case Some(ProbeNeverRecovered) => Window(k, Some(LimitReached), 3)
                    case Some(CallerStop) => Window(k, Some(Aborted(CallerStop)), 0)
    }

    /** Why the loop gave up: at the bound exactly for MaxWindows, below it exactly if no probe saw the limit lifted. */
    ghost predicate GaveUpRightly(lifted: Lifted)
      requires windows != []
      reads this
    {
      && (aborted == Some(MaxWindows) ==> |windows| >= maxWindows)
      && (aborted == Some(ProbeNeverRecovered) ==> |windows| < maxWindows && !LiftedAfter(lifted, |windows| - 1))
    }

    /** How the records of the windows of this call read at its end. */
    ghost predicate WindowsClosed(first: nat, lifted: Lifted)
      reads this
    {
      && first < |windows|
      && (forall i :: first <= i < |windows| - 1 ==> Reopened(lifted, i, windows[i]))
      && LastClosed(lifted) && GaveUpRightly(lifted)
    }

    /** While the loop runs: the current window is open, and the limit of every earlier one of this call was lifted. */
    ghost predicate WindowsOpen(first: nat, lifted: Lifted)
      reads this`windows
    {
      && first < |windows|
      && windows[|windows| - 1] == Window(|windows| - 1, None, 0)
      && forall i :: first <= i < |windows| - 1 ==> Reopened(lifted, i, windows[i])
    }

    /**
     * After limit hits: close the window, wait, probe, and requeue the hit units in front of the next window. Below the
     * bound it reopens exactly if one of three probes sees the limit lifted.
     */
    method Transition(lifted: Lifted, ghost first: nat, ghost s0: State, pool: Pool, ghost trace0: seq<Event>)
      returns (reopened: bool, ghost trace: seq<Event>)
      requires pool.limitHits != [] && pool.inFlight == {} && aborted.None?
      requires WindowsOpen(first, lifted) && Follows(s0, trace0, pool) && WindowsOf(s0, trace0) == |windows|
      modifies this
      ensures old(windows)[..first] <= windows
      ensures reopened <==> |old(windows)| < maxWindows && LiftedAfter(lifted, |old(windows)| - 1)
      ensures aborted == if reopened then None
                         else if |old(windows)| >= maxWindows then Some(MaxWindows) else Some(ProbeNeverRecovered)
      ensures |windows| == |old(windows)| + if reopened then 1 else 0
      ensures Replay(Cfg(), s0, trace).Some? && WindowsOf(s0, trace) == |windows|
      ensures trace == trace0 + [if reopened then NextWindow else GiveUp(aborted.value)]
      ensures reopened ==>
        WindowsOpen(first, lifted) && Follows(s0, trace, Pool(pool.limitHits + pool.queue, {}, [], false))
      ensures !reopened ==>
        && WindowsClosed(first, lifted)
        && Replay(Cfg(), s0, trace).value.inFlight == {} && Replay(Cfg(), s0, trace).value.aborted == aborted
    {
      var k := |windows| - 1;
      windows := windows[k := windows[k].(stopReason := Some(LimitReached))];
      if |windows| >= maxWindows {
        GiveUpFollows(s0, trace0, pool, MaxWindows);
        aborted := Some(MaxWindows);
        return false, trace0 + [GiveUp(MaxWindows)];
      }
      var recovered, probes := Probe(lifted, k);
      windows := windows[k := windows[k].(probeAttempts := probes)];
      if !recovered {
        GiveUpFollows(s0, trace0, pool, ProbeNeverRecovered);
        aborted := Some(ProbeNeverRecovered);
        return false, trace0 + [GiveUp(ProbeNeverRecovered)];
      }
      NextWindowFollows(s0, trace0, pool);
      windows := windows + [Window(|windows|, None, 0)];
      return true, trace0 + [NextWindow];
    }

    lemma GiveUpFollows(s0: State, trace: seq<Event>, pool: Pool, reason: Abort)
      requires Follows(s0, trace, pool) && aborted.None? && pool.inFlight == {} && pool.limitHits != []
      requires reason != CallerStop && (reason == MaxWindows <==> WindowsOf(s0, trace) >= maxWindows)
      ensures var r := Replay(Cfg(), s0, trace + [GiveUp(reason)]);
        r.Some? && r.value.inFlight == {} && r.value.aborted == Some(reason)
      ensures WindowsOf(s0, trace + [GiveUp(reason)]) == WindowsOf(s0, trace)
    {
      var s := Replay(Cfg(), s0, trace).value;
      assert Next(Cfg(), s, GiveUp(reason)) == Some(s.(aborted := Some(reason)));
      ReplaySnoc(Cfg(), s0, trace, GiveUp(reason));
    }

    lemma NextWindowFollows(s0: State, trace: seq<Event>, pool: Pool)
      requires Follows(s0, trace, pool) && aborted.None? && pool.inFlight == {} && pool.limitHits != []
      requires WindowsOf(s0, trace) < maxWindows
      ensures Follows(s0, trace + [NextWindow], Pool(pool.limitHits + pool.queue, {}, [], false))
      ensures WindowsOf(s0, trace + [NextWindow]) == WindowsOf(s0, trace) + 1
    {
      Extend(s0, trace, NextWindow);
    }

    lemma StartFollows(first: nat)
      requires aborted.None?
      ensures Follows(Start(Cfg(), first, None), [], Pool(Positions(0, units), {}, [], false))
      ensures WindowsOf(Start(Cfg(), first, None), []) == first
    {
      StartSafe(Cfg(), first, None);
    }

    /** The head of the loop: the current window is open, and the trace leads to the queue. */
    ghost predicate Looping(lifted: Lifted, first: nat, s0: State, queue: seq<nat>, trace: seq<Event>, waits: seq<nat>)
      reads this
    {
      && aborted.None? && WindowsOpen(first, lifted)
      && Follows(s0, trace, Pool(queue, {}, [], false)) && WindowsOf(s0, trace) == |windows|
      && Rolling(Cfg(), s0, trace, waits)
    }

    /** The end of the loop: every window is closed, and the trace leads to the final state. */
    ghost predicate Finished(lifted: Lifted, first: nat, s0: State, trace: seq<Event>, waits: seq<nat>)
      reads this
    {
      && Replay(Cfg(), s0, trace).Some? && Rolling(Cfg(), s0, trace, waits)
      && WindowsClosed(first, lifted)
      && var s := Replay(Cfg(), s0, trace).value;
         Ended(s) && s.aborted == aborted && s.windows == |windows|
    }

    /** Closes the last window of a loop that ends without a transition. */
    method CloseLast(ghost lifted: Lifted, ghost first: nat, ghost s0: State, ghost pool: Pool,
                     ghost trace: seq<Event>, ghost waits: seq<nat>)
      requires WindowsOpen(first, lifted) && (aborted.Some? ==> aborted == Some(CallerStop))
      requires Follows(s0, trace, pool) && WindowsOf(s0, trace) == |windows| && Rolling(Cfg(), s0, trace, waits)
      requires pool.inFlight == {} && (aborted.None? ==> pool.queue == [] && pool.limitHits == [])
      modifies this`windows
      ensures old(windows)[..first] <= windows && Finished(lifted, first, s0, trace, waits)
    {
      var k := |windows| - 1;
      var reason := if aborted.Some? then Aborted(aborted.value) else Drained;
      windows := windows[k := windows[k].(stopReason := Some(reason))];
    }

    /** One pass of the loop: a window, and what follows it. */
    method Turn(lifted: Lifted, ghost first: nat, ghost s0: State, queue0: seq<nat>, ghost trace0: seq<Event>,
                ghost waits0: seq<nat>)
      returns (again: bool, queue: seq<nat>, ghost trace: seq<Event>, ghost waits: seq<nat>)
      requires concurrency >= 1 && queue0 != [] && Looping(lifted, first, s0, queue0, trace0, waits0)
      modifies this
      ensures old(windows)[..first] <= windows
      ensures again ==>
        && Looping(lifted, first, s0, queue, trace, waits) && queue != []
        && |windows| == |old(windows)| + 1 <= maxWindows
      ensures !again ==> Finished(lifted, first, s0, trace, waits)
    {
      var pool;
      pool, trace, waits := ExecuteWindow(s0, queue0, trace0, waits0);
      queue := pool.queue;
      if aborted.Some? || pool.limitHits == [] {
        CloseLast(lifted, first, s0, pool, trace, waits);
        return false, queue, trace, waits;
      }
      RollsOver(Cfg(), s0, trace, waits);
      again, trace := Transition(lifted, first, s0, pool, trace);
      queue := pool.limitHits + queue;
    }

    /** run(). The flag reports the ValueError of a pool without workers; a loop aborted before executes nothing. */
    method Run(lifted: Lifted)
      returns (raised: bool, ghost s0: State, ghost trace: seq<Event>, ghost waits: seq<nat>)
      modifies this
      ensures s0 == Start(Cfg(), |old(windows)| + 1, old(aborted))
      ensures old(windows) <= windows
      ensures raised <==> concurrency < 1 && units > 0 && old(aborted).None?
      ensures old(aborted).Some? ==>
        && trace == [] && aborted == old(aborted)
        && windows == old(windows) + [Window(|old(windows)|, Some(Aborted(aborted.value)), 0)]
      ensures raised ==> trace == [] && windows == old(windows) + [Window(|old(windows)|, None, 0)] && aborted == None
      ensures !raised && old(aborted).None? ==> Finished(lifted, |old(windows)|, s0, trace, waits)
    {
      var first := |windows|;
      windows := windows + [Window(|windows|, None, 0)];
      s0 := Start(Cfg(), |windows|, aborted);
      trace, waits := [], [];
      if aborted.Some? {
        windows := windows[first := windows[first].(stopReason := Some(Aborted(aborted.value)))];
        return false, s0, trace, waits;
      }
      StartFollows(|windows|);
      var queue := Positions(0, units);
      if queue != [] && concurrency < 1 {
        return true, s0, trace, waits;
      }
      while queue != []
        invariant old(windows) <= windows && Looping(lifted, first, s0, queue, trace, waits)
        invariant queue != [] ==> concurrency >= 1
        decreases maxWindows - |windows|
      {
        var again;
        again, queue, trace, waits := Turn(lifted, first, s0, queue, trace, waits);
        if !again {
          return false, s0, trace, waits;
        }
      }
      CloseLast(lifted, first, s0, Pool([], {}, [], false), trace, waits);
      raised := false;
    }
  }
}
