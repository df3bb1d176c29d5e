/** The resumable run loop: rolling submission, usage-limit windows, requeue (src/karc/bench/checkpoint.py). */
module RunLoop {
  import opened Collections

  datatype FailureClass = Ok | Task | UsageLimit | OtherFailure

  datatype Abort = CallerStop | MaxWindows | ProbeNeverRecovered

  datatype Config = Config(units: nat, concurrency: int, maxWindows: int)

  /** What happens to the units, named by their position in the schedule. */
  datatype Event =
    | Submit(u: nat)
    | Finish(u: nat, failure: FailureClass, keepGoing: bool)
    | NextWindow
    | GiveUp(reason: Abort)

  datatype State = State(
    queue: seq<nat>, inFlight: set<nat>, limitHits: seq<nat>, done: set<nat>,
    resumed: set<nat>, stopSubmitting: bool, windows: nat, aborted: Option<Abort>)

  function Positions(lo: nat, hi: nat): (r: seq<nat>)
    requires lo <= hi
    ensures |r| == hi - lo && forall i :: 0 <= i < |r| ==> r[i] == lo + i
  {
    seq(hi - lo, i requires 0 <= i < hi - lo => lo + i)
  }

  function Start(cfg: Config, windows: nat, aborted: Option<Abort>): State {
    State(Positions(0, cfg.units), {}, [], {}, {}, false, windows, aborted)
  }

  /** The rules of the loop; None marks an event that they forbid in this state. */
  function Next(cfg: Config, s: State, e: Event): Option<State> {
    match e
    case Submit(u) =>
      if s.aborted.None? && !s.stopSubmitting && |s.inFlight| < cfg.concurrency && s.queue != [] && s.queue[0] == u then
        Some(s.(queue := s.queue[1..], inFlight := s.inFlight + {u}))
      else None
    case Finish(u, failure, keepGoing) =>
      if u in s.inFlight then
        var t := s.(inFlight := s.inFlight - {u},
                    stopSubmitting := s.stopSubmitting || failure == UsageLimit || !keepGoing,
                    aborted := if keepGoing || s.aborted.Some? then s.aborted else Some(CallerStop));
        Some(if failure == UsageLimit then t.(limitHits := t.limitHits + [u]) else t.(done := t.done + {u}))
      else None
    case NextWindow =>
      if s.aborted.None? && s.inFlight == {} && s.limitHits != [] && s.windows < cfg.maxWindows then
        Some(s.(queue := s.limitHits + s.queue, limitHits := [], resumed := s.resumed + Elements(s.limitHits),
                stopSubmitting := false, windows := s.windows + 1))
      else None
    case GiveUp(reason) =>
      if s.aborted.None? && s.inFlight == {} && s.limitHits != [] && reason != CallerStop
         && (reason == MaxWindows <==> s.windows >= cfg.maxWindows) then
        Some(s.(aborted := Some(reason)))
      else None
  }

  function Replay(cfg: Config, s: State, trace: seq<Event>): Option<State> {
    if trace == [] then Some(s)
    else
      match Replay(cfg, s, trace[..|trace| - 1])
      case None => None
      case Some(t) => Next(cfg, t, trace[|trace| - 1])
  }

  lemma ReplaySnoc(cfg: Config, s: State, trace: seq<Event>, e: Event)
    requires Replay(cfg, s, trace).Some?
    ensures Replay(cfg, s, trace + [e]) == Next(cfg, Replay(cfg, s, trace).value, e)
  {
    assert (trace + [e])[..|trace|] == trace;
  }

  lemma {:induction false} ReplayPrefixSome(cfg: Config, s: State, trace: seq<Event>, i: nat)
    requires i <= |trace| && Replay(cfg, s, trace).Some?
    ensures Replay(cfg, s, trace[..i]).Some?
  {
    if i == |trace| {
      assert trace[..i] == trace;
    } else {
      ReplayPrefixSome(cfg, s, trace[..|trace| - 1], i);
      assert trace[..|trace| - 1][..i] == trace[..i];
    }
  }

  lemma ReplayStep(cfg: Config, s: State, trace: seq<Event>, i: nat)
    requires i < |trace| && Replay(cfg, s, trace).Some?
    ensures Replay(cfg, s, trace[..i]).Some? && Replay(cfg, s, trace[..i + 1]).Some?
    ensures Next(cfg, Replay(cfg, s, trace[..i]).value, trace[i]) == Replay(cfg, s, trace[..i + 1])
  {
    ReplayPrefixSome(cfg, s, trace, i);
    ReplayPrefixSome(cfg, s, trace, i + 1);
    assert trace[..i + 1][..i] == trace[..i];
  }

  // ----- what every run keeps -----

  /** Queue, in flight, limit-hit and settled units partition the schedule. */
  ghost predicate Conserved(n: nat, s: State) {
    && NoDup(s.queue) && NoDup(s.limitHits)
    && (forall u :: u in s.queue ==> u !in s.inFlight && u !in s.limitHits && u !in s.done)
    && (forall u :: u in s.limitHits ==> u !in s.inFlight && u !in s.done)
    && s.inFlight !! s.done
    && forall u: nat :: u < n <==> u in s.queue || u in s.inFlight || u in s.limitHits || u in s.done
  }

  /** The queue is what was requeued, then an untouched rest of the schedule from k on. */
  ghost predicate InOrder(n: nat, s: State, k: nat) {
    && k <= n
    && |s.queue| >= n - k
    && s.queue[|s.queue| - (n - k)..] == Positions(k, n)
    && (forall i :: 0 <= i < |s.queue| - (n - k) ==> s.queue[i] < k && s.queue[i] in s.resumed)
    && (forall u :: u in s.inFlight || u in s.limitHits || u in s.done || u in s.resumed ==> u < k)
    && forall u: nat :: u < k ==> u in s.inFlight || u in s.limitHits || u in s.done || u in s.resumed
  }

  ghost predicate Safe(cfg: Config, first: nat, s: State) {
    && Conserved(cfg.units, s)
    && |s.inFlight| <= (if cfg.concurrency < 0 then 0 else cfg.concurrency)
    && (s.limitHits != [] ==> s.stopSubmitting)
    && first <= s.windows <= (if first >= cfg.maxWindows then first else cfg.maxWindows)
  }

  lemma SubmitConserves(cfg: Config, s: State, u: nat)
    requires Conserved(cfg.units, s) && Next(cfg, s, Submit(u)).Some?
    ensures Conserved(cfg.units, Next(cfg, s, Submit(u)).value)
  {
    var t := Next(cfg, s, Submit(u)).value;
    assert s.queue == [u] + t.queue;
  }

  lemma FinishConserves(cfg: Config, s: State, u: nat, failure: FailureClass, keepGoing: bool)
    requires Conserved(cfg.units, s) && u in s.inFlight
    ensures Conserved(cfg.units, Next(cfg, s, Finish(u, failure, keepGoing)).value)
  {
  }

  lemma WindowConserves(cfg: Config, s: State)
    requires Conserved(cfg.units, s) && Next(cfg, s, NextWindow).Some?
    ensures Conserved(cfg.units, Next(cfg, s, NextWindow).value)
  {
    NoDupConcat(s.limitHits, s.queue);
  }

  lemma StepConserves(cfg: Config, s: State, e: Event)
    requires Conserved(cfg.units, s) && Next(cfg, s, e).Some?
    ensures Conserved(cfg.units, Next(cfg, s, e).value)
  {
    match e
    case Submit(u) => SubmitConserves(cfg, s, u);
    case Finish(u, failure, keepGoing) => FinishConserves(cfg, s, u, failure, keepGoing);
    case NextWindow => WindowConserves(cfg, s);
    case GiveUp(_) =>
  }

  lemma StepSafe(cfg: Config, first: nat, s: State, e: Event)
    requires Safe(cfg, first, s) && Next(cfg, s, e).Some?
    ensures Safe(cfg, first, Next(cfg, s, e).value)
  {
    StepConserves(cfg, s, e);
  }

  lemma StartSafe(cfg: Config, windows: nat, aborted: Option<Abort>)
    ensures Safe(cfg, windows, Start(cfg, windows, aborted))
    ensures InOrder(cfg.units, Start(cfg, windows, aborted), 0)
  {
    var s := Start(cfg, windows, aborted);
    forall u: nat
      ensures u < cfg.units <==> u in s.queue
    {
      if u < cfg.units {
        assert s.queue[u] == u;
      }
    }
  }

  lemma SubmitInOrder(cfg: Config, s: State, k: nat, u: nat) returns (k': nat)
    requires InOrder(cfg.units, s, k) && Next(cfg, s, Submit(u)).Some?
    ensures InOrder(cfg.units, Next(cfg, s, Submit(u)).value, k')
    ensures u in s.resumed || (u == k && k' == k + 1)
  {
    var n, t := cfg.units, Next(cfg, s, Submit(u)).value;
    assert s.queue == [u] + t.queue;
    if |s.queue| == n - k {
      k' := k + 1;
      assert s.queue == Positions(k, n);
      assert t.queue == Positions(k + 1, n);
    } else {
      k' := k;
      assert t.queue[|t.queue| - (n - k)..] == s.queue[|s.queue| - (n - k)..];
      assert forall i :: 0 <= i < |t.queue| ==> t.queue[i] == s.queue[i + 1];
      assert s.queue[0] == u;
    }
  }

  lemma WindowInOrder(cfg: Config, s: State, k: nat)
    requires InOrder(cfg.units, s, k) && Next(cfg, s, NextWindow).Some?
    ensures InOrder(cfg.units, Next(cfg, s, NextWindow).value, k)
  {
    var n, t := cfg.units, Next(cfg, s, NextWindow).value;
    assert t.queue[|t.queue| - (n - k)..] == s.queue[|s.queue| - (n - k)..];
    forall i | 0 <= i < |t.queue| - (n - k)
      ensures t.queue[i] < k && t.queue[i] in t.resumed
    {
      if i < |s.limitHits| {
        assert t.queue[i] == s.limitHits[i] && s.limitHits[i] in s.limitHits;
      } else {
        assert t.queue[i] == s.queue[i - |s.limitHits|];
      }
    }
  }

  lemma StepInOrder(cfg: Config, s: State, k: nat, e: Event) returns (k': nat)
    requires InOrder(cfg.units, s, k) && Next(cfg, s, e).Some?
    ensures InOrder(cfg.units, Next(cfg, s, e).value, k')
    ensures e.Submit? ==> e.u in s.resumed || (e.u == k && k' == k + 1)
  {
    k' := k;
    match e
    case Submit(u) => k' := SubmitInOrder(cfg, s, k, u);
    case Finish(u, failure, keepGoing) =>
    case NextWindow => WindowInOrder(cfg, s, k);
    case GiveUp(_) =>
  }

  // ----- whole runs -----

  /** In every reachable state: conservation, the concurrency bound and the window bound. */
  lemma {:induction false} RunSafe(cfg: Config, windows: nat, aborted: Option<Abort>, trace: seq<Event>)
    returns (k: nat)
    requires Replay(cfg, Start(cfg, windows, aborted), trace).Some?
    ensures var s := Replay(cfg, Start(cfg, windows, aborted), trace).value;
      Safe(cfg, windows, s) && InOrder(cfg.units, s, k)
  {
    if trace == [] {
      StartSafe(cfg, windows, aborted);
      k := 0;
    } else {
      var h, e := trace[..|trace| - 1], trace[|trace| - 1];
      var j := RunSafe(cfg, windows, aborted, h);
      var s := Replay(cfg, Start(cfg, windows, aborted), h).value;
      StepSafe(cfg, windows, s, e);
      k := StepInOrder(cfg, s, j, e);
    }
  }

  /** A unit submitted for the first time is the earliest one that was never submitted. */
  lemma FirstRunsInScheduleOrder(cfg: Config, windows: nat, aborted: Option<Abort>, trace: seq<Event>, i: nat, v: nat)
    requires Replay(cfg, Start(cfg, windows, aborted), trace).Some?
    requires i < |trace| && trace[i].Submit? && v < trace[i].u
    ensures Replay(cfg, Start(cfg, windows, aborted), trace[..i]).Some?
    ensures var s := Replay(cfg, Start(cfg, windows, aborted), trace[..i]).value;
      trace[i].u in s.resumed || v in s.inFlight || v in s.limitHits || v in s.done || v in s.resumed
  {
    ReplayStep(cfg, Start(cfg, windows, aborted), trace, i);
    var k := RunSafe(cfg, windows, aborted, trace[..i]);
    var s := Replay(cfg, Start(cfg, windows, aborted), trace[..i]).value;
    var _ := StepInOrder(cfg, s, k, trace[i]);
  }

  lemma DoneStep(cfg: Config, s: State, e: Event, u: nat)
    requires Conserved(cfg.units, s) && u in s.done && Next(cfg, s, e).Some?
    ensures e != Submit(u) && !(e.Finish? && e.u == u)
    ensures u in Next(cfg, s, e).value.done
  {
  }

  lemma DoneAfter(cfg: Config, s0: State, trace: seq<Event>, j: nat, s: State, u: nat) returns (t: State)
    requires Conserved(cfg.units, s) && u in s.done
    requires Replay(cfg, s0, trace).Some? && j < |trace| && Replay(cfg, s0, trace[..j]) == Some(s)
    ensures trace[j] != Submit(u) && !(trace[j].Finish? && trace[j].u == u)
    ensures Replay(cfg, s0, trace[..j + 1]) == Some(t) && Conserved(cfg.units, t) && u in t.done
  {
    ReplayStep(cfg, s0, trace, j);
    StepConserves(cfg, s, trace[j]);
    DoneStep(cfg, s, trace[j], u);
    t := Next(cfg, s, trace[j]).value;
  }

  /** A settled unit stays settled. */
  lemma {:induction false} DoneStays(cfg: Config, s0: State, trace: seq<Event>, i: nat, j: nat, s: State, u: nat)
    returns (t: State)
    requires Conserved(cfg.units, s) && u in s.done
    requires Replay(cfg, s0, trace).Some? && i <= j <= |trace| && Replay(cfg, s0, trace[..i]) == Some(s)
    ensures Replay(cfg, s0, trace[..j]) == Some(t) && Conserved(cfg.units, t) && u in t.done
    decreases j - i
  {
    t := s;
    if i < j {
      t := DoneAfter(cfg, s0, trace, i, s, u);
      t := DoneStays(cfg, s0, trace, i + 1, j, t, u);
    }
  }

  /** A unit whose outcome was not a usage limit is never executed again in this run. */
  lemma SettledIsFinal(cfg: Config, windows: nat, aborted: Option<Abort>, trace: seq<Event>, i: nat, j: nat)
    requires Replay(cfg, Start(cfg, windows, aborted), trace).Some?
    requires i < j < |trace| && trace[i].Finish? && trace[i].failure != UsageLimit
    ensures trace[j] != Submit(trace[i].u)
    ensures trace[j].Finish? ==> trace[j].u != trace[i].u
  {
    var s0 := Start(cfg, windows, aborted);
    ReplayStep(cfg, s0, trace, i);
    var _ := RunSafe(cfg, windows, aborted, trace[..i + 1]);
    var t := DoneStays(cfg, s0, trace, i + 1, j, Replay(cfg, s0, trace[..i + 1]).value, trace[i].u);
    t := DoneAfter(cfg, s0, trace, j, t, trace[i].u);
  }

  /** After a limit hit or a caller stop nothing is submitted before the next window. */
  lemma {:induction false} SubmitsStop(cfg: Config, s0: State, trace: seq<Event>, i: nat, j: nat)
    requires Replay(cfg, s0, trace).Some?
    requires i < j < |trace| && trace[i].Finish? && (trace[i].failure == UsageLimit || !trace[i].keepGoing)
    requires forall m :: i < m < j ==> !trace[m].NextWindow?
    ensures !trace[j].Submit?
  {
    StopHolds(cfg, s0, trace, i, j);
    ReplayStep(cfg, s0, trace, j);
  }

  lemma {:induction false} StopHolds(cfg: Config, s0: State, trace: seq<Event>, i: nat, j: nat)
    requires Replay(cfg, s0, trace).Some?
    requires i < j <= |trace| && trace[i].Finish? && (trace[i].failure == UsageLimit || !trace[i].keepGoing)
    requires forall m :: i < m < j ==> !trace[m].NextWindow?
    ensures Replay(cfg, s0, trace[..j]).Some? && Replay(cfg, s0, trace[..j]).value.stopSubmitting
  {
    ReplayStep(cfg, s0, trace, j - 1);
    if i < j - 1 {
      StopHolds(cfg, s0, trace, i, j - 1);
    }
  }

  /** After a caller stop no further window opens and nothing is submitted in this run. */
  lemma {:induction false} CallerStopIsFinal(cfg: Config, s0: State, trace: seq<Event>, i: nat, j: nat)
    requires Replay(cfg, s0, trace).Some?
    requires i < j < |trace| && trace[i].Finish? && !trace[i].keepGoing
    ensures trace[j].Finish?
  {
    AbortHolds(cfg, s0, trace, i, j);
    ReplayStep(cfg, s0, trace, j);
  }

  lemma {:induction false} AbortHolds(cfg: Config, s0: State, trace: seq<Event>, i: nat, j: nat)
    requires Replay(cfg, s0, trace).Some?
    requires i < j <= |trace| && trace[i].Finish? && !trace[i].keepGoing
    ensures Replay(cfg, s0, trace[..j]).Some? && Replay(cfg, s0, trace[..j]).value.aborted.Some?
  {
    ReplayStep(cfg, s0, trace, j - 1);
    if i < j - 1 {
      AbortHolds(cfg, s0, trace, i, j - 1);
    }
  }

  /** What the loop leaves behind: nothing in flight, and without an abort nothing queued or limit-hit either. */
  ghost predicate Ended(s: State) {
    s.inFlight == {} && (s.aborted.None? ==> s.queue == [] && s.limitHits == [])
  }

  /** An unaborted run has settled every unit of the schedule. */
  lemma UnabortedSettlesAll(cfg: Config, windows: nat, aborted: Option<Abort>, trace: seq<Event>, u: nat)
    requires Replay(cfg, Start(cfg, windows, aborted), trace).Some?
    requires var s := Replay(cfg, Start(cfg, windows, aborted), trace).value; Ended(s) && s.aborted.None?
    requires u < cfg.units
    ensures exists i :: 0 <= i < |trace| && LastOutcome(trace, i, u) && trace[i].failure != UsageLimit
  {
    var _ := RunSafe(cfg, windows, aborted, trace);
    assert u in Replay(cfg, Start(cfg, windows, aborted), trace).value.done;
    var i := WhenSettled(cfg, windows, aborted, trace, u);
  }

  /** Event i reports u, and no later event does. */
  ghost predicate LastOutcome(trace: seq<Event>, i: nat, u: nat)
    requires i < |trace|
  {
    trace[i].Finish? && trace[i].u == u && forall j :: i < j < |trace| ==> !(trace[j].Finish? && trace[j].u == u)
  }

  lemma StillLast(trace: seq<Event>, i: nat, u: nat)
    requires i < |trace| - 1 && LastOutcome(trace[..|trace| - 1], i, u)
    requires var e := trace[|trace| - 1]; !(e.Finish? && e.u == u)
    ensures LastOutcome(trace, i, u)
  {
    forall j | i < j < |trace|
      ensures !(trace[j].Finish? && trace[j].u == u)
    {
      assert j < |trace| - 1 ==> trace[..|trace| - 1][j] == trace[j];
    }
  }

  lemma {:induction false} WhenSettled(cfg: Config, windows: nat, aborted: Option<Abort>, trace: seq<Event>, u: nat)
    returns (i: nat)
    requires Replay(cfg, Start(cfg, windows, aborted), trace).Some?
    requires u in Replay(cfg, Start(cfg, windows, aborted), trace).value.done
    ensures i < |trace| && LastOutcome(trace, i, u) && trace[i].failure != UsageLimit
  {
    var h, e := trace[..|trace| - 1], trace[|trace| - 1];
    var s := Replay(cfg, Start(cfg, windows, aborted), h).value;
    if u in s.done {
      i := WhenSettled(cfg, windows, aborted, h, u);
      var _ := RunSafe(cfg, windows, aborted, h);
      DoneStep(cfg, s, e, u);
      StillLast(trace, i, u);
    } else {
      i := |h|;
    }
  }

  // ----- what a window executes -----

  /** The units that met the usage limit in the current window, in the order of their outcomes. */
  function HitsOf(trace: seq<Event>): seq<nat> {
    if trace == [] then []
    else
      var h := HitsOf(trace[..|trace| - 1]);
      match trace[|trace| - 1]
      case NextWindow => []
      case Finish(u, failure, _) => if failure == UsageLimit then h + [u] else h
      case _ => h
  }

  /** The units submitted in the current window. */
  function SubmittedIn(trace: seq<Event>): seq<nat> {
    if trace == [] then []
    else
      var h := SubmittedIn(trace[..|trace| - 1]);
      match trace[|trace| - 1]
      case NextWindow => []
      case Submit(u) => h + [u]
      case _ => h
  }

  /** What the current window is to execute: the schedule, or the units that met the limit before those left over. */
  function WindowQueue(n: nat, trace: seq<Event>): seq<nat> {
    if trace == [] then Positions(0, n)
    else
      var h := trace[..|trace| - 1];
      if trace[|trace| - 1].NextWindow? then HitsOf(h) + Rest(WindowQueue(n, h), |SubmittedIn(h)|)
      else WindowQueue(n, h)
  }

  function Rest(queue: seq<nat>, taken: nat): seq<nat> {
    if taken <= |queue| then queue[taken..] else []
  }

  ghost predicate RunsQueue(n: nat, trace: seq<Event>, s: State) {
    s.limitHits == HitsOf(trace) && SubmittedIn(trace) + s.queue == WindowQueue(n, trace)
  }

  lemma StepRunsQueue(cfg: Config, h: seq<Event>, s: State, e: Event)
    requires RunsQueue(cfg.units, h, s) && Next(cfg, s, e).Some?
    ensures RunsQueue(cfg.units, h + [e], Next(cfg, s, e).value)
  {
    assert (h + [e])[..|h|] == h;
    var before := SubmittedIn(h);
    if e.Submit? {
      assert before + s.queue == before + [e.u] + s.queue[1..];
    } else if e.NextWindow? {
      assert Rest(before + s.queue, |before|) == s.queue;
      assert SubmittedIn(h + [e]) == [];
    }
  }

  /** Every window submits, in order, the units that met the limit in the one before and then the rest of its queue. */
  lemma {:induction false} WindowRunsHitsFirst(cfg: Config, windows: nat, aborted: Option<Abort>, trace: seq<Event>)
    requires Replay(cfg, Start(cfg, windows, aborted), trace).Some?
    ensures var s := Replay(cfg, Start(cfg, windows, aborted), trace).value;
      && s.limitHits == HitsOf(trace)
      && SubmittedIn(trace) + s.queue == WindowQueue(cfg.units, trace)
  {
    if trace != [] {
      var h, e := trace[..|trace| - 1], trace[|trace| - 1];
      WindowRunsHitsFirst(cfg, windows, aborted, h);
      StepRunsQueue(cfg, h, Replay(cfg, Start(cfg, windows, aborted), h).value, e);
      assert h + [e] == trace;
    }
  }
}
