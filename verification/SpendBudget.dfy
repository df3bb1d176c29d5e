/** The model-spend budget with a condition-variable waiter (src/karc/bench/e5_runtime_accounting.py). */
module SpendBudget {
  import opened Collections
  import opened AttemptLedger

  datatype Counters = Counters(cap: int, spend: nat, infra: nat, calls: nat, inFlight: int)

  /** What a waiter waits for: the true cap, or a free provisional slot. */
  predicate Ready(c: Counters) {
    c.spend >= c.cap || c.spend + c.inFlight < c.cap
  }

  function Granted(c: Counters): Counters {
    c.(inFlight := c.inFlight + 1, calls := c.calls + 1)
  }

  function Charged(c: Counters, spend: bool): Counters {
    if spend then c.(inFlight := c.inFlight - 1, spend := c.spend + 1)
    else c.(inFlight := c.inFlight - 1, infra := c.infra + 1)
  }

  datatype Wait = MustWait | Returned(granted: bool)

  /** reserve. */
  function Reserved(c: Counters): (Counters, bool) {
    if c.spend + c.inFlight >= c.cap then (c, false) else (Granted(c), true)
  }

  /** One look of reserve_when_available. */
  function Looked(c: Counters): (Counters, Wait) {
    if !Ready(c) then (c, MustWait)
    else if c.spend >= c.cap then (c, Returned(false))
    else (Granted(c), Returned(true))
  }

  class ModelSpendBudget {
    var counters: Counters

    /** Fails with ValueError exactly on a nonpositive cap or a historical spend above it (see Open). */
    constructor (cap: int, prior: Charge)
      requires cap > 0 && prior.spend <= cap
      ensures counters == Counters(cap, prior.spend, prior.infra, prior.calls, 0)
    {
      counters := Counters(cap, prior.spend, prior.infra, prior.calls, 0);
    }

    method Reserve() returns (granted: bool)
      modifies this
      ensures (counters, granted) == Reserved(old(counters))
      ensures granted <==> old(counters).spend + old(counters).inFlight < old(counters).cap
    {
      if counters.spend + counters.inFlight >= counters.cap {
        return false;
      }
      counters := Granted(counters);
      granted := true;
    }

    /** One evaluation of reserve_when_available under the lock, after which the thread returns or goes to sleep. */
    method TryReserve() returns (w: Wait)
      modifies this
      ensures (counters, w) == Looked(old(counters))
      ensures w.MustWait? <==> old(counters).spend < old(counters).cap <= old(counters).spend + old(counters).inFlight
      ensures w == Returned(false) <==> old(counters).spend >= old(counters).cap
    {
      var ready := counters.spend >= counters.cap || counters.spend + counters.inFlight < counters.cap;
      if !ready {
        return MustWait;
      }
      if counters.spend >= counters.cap {
        return Returned(false);
      }
      counters := Granted(counters);
      w := Returned(true);
    }

    /** False stands for the RuntimeError of a settle without a reservation. */
    method Settle(result: CallResult) returns (ok: bool)
      modifies this
      ensures ok <==> old(counters).inFlight > 0
      ensures counters == if ok then Charged(old(counters), IsModelSpend(result)) else old(counters)
      ensures ok ==>
        && counters.inFlight == old(counters).inFlight - 1
        && counters.spend + counters.infra == old(counters).spend + old(counters).infra + 1
        && (counters.spend == old(counters).spend <==>
              && result.failed && result.gross <= 0 && result.freshInput <= 0
              && result.output <= 0 && result.reasoning <= 0)
    {
      var spend := IsModelSpend(result);
      if counters.inFlight <= 0 {
        return false;
      }
      counters := counters.(inFlight := counters.inFlight - 1);
      if spend {
        counters := counters.(spend := counters.spend + 1);
      } else {
        counters := counters.(infra := counters.infra + 1);
      }
      ok := true;
    }
  }

  /** ModelSpendBudget.from_rows; null stands for a ValueError. */
  method Open(cap: int, rows: seq<Row>) returns (b: ModelSpendBudget?)
    ensures b == null <==> (cap <= 0 || Ledger(rows).None? || Ledger(rows).value.spend > cap)
    ensures b != null ==>
      && Ledger(rows).Some?
      && var l := Ledger(rows).value;
         && b.counters == Counters(cap, l.spend, l.infra, l.calls, 0)
         && b.counters.spend == ReportedSpend(rows) + |LegacySpenders(rows)|
         && b.counters.spend + b.counters.infra == b.counters.calls + |UncalledRows(rows)|
  {
    var prior := LedgerFromRows(rows);
    if prior.None? || cap <= 0 || prior.value.spend > cap {
      return null;
    }
    LedgerBalance(rows);
    b := new ModelSpendBudget(cap, prior.value);
  }

  // ----- threads -----

  /** A thread runs, sleeps in the condition wait, or has been notified and will look again. */
  datatype Mode = Running | Asleep | Woken

  /** held counts the reservations of a thread; timed says that its wait has a timeout. */
  datatype Thread = Thread(held: nat, mode: Mode, timed: bool)

  datatype World = World(counters: Counters, threads: seq<Thread>)

  /** Atomic steps: what a thread does between taking and releasing the lock. */
  datatype Step =
    | Reserve(t: nat)
    | ReserveWhenAvailable(t: nat, timed: bool)
    | LookAgain(t: nat)
    | TimeOut(t: nat)
    | Settle(t: nat, spend: bool)

  datatype Reply = Silent | Replied(granted: bool)

  /** Evaluates the wait predicate for thread t: it is granted, refused, or goes (back) to sleep. */
  function Look(w: World, t: nat, timed: bool): (World, Reply)
    requires t < |w.threads|
  {
    var th := w.threads[t];
    match Looked(w.counters)
    case (c, MustWait) => (World(c, w.threads[t := th.(mode := Asleep, timed := timed)]), Silent)
    case (c, Returned(granted)) =>
      (World(c, w.threads[t := th.(mode := Running, held := th.held + if granted then 1 else 0)]), Replied(granted))
  }

  function WakeAll(threads: seq<Thread>): (r: seq<Thread>)
    ensures |r| == |threads|
    ensures forall i :: 0 <= i < |r| ==>
      r[i] == if threads[i].mode == Asleep then threads[i].(mode := Woken) else threads[i]
  {
    seq(|threads|, i requires 0 <= i < |threads| =>
      if threads[i].mode == Asleep then threads[i].(mode := Woken) else threads[i])
  }

  /** None marks a step no thread can take. A thread settles only what it reserved. */
  function Next(w: World, step: Step): Option<(World, Reply)> {
    if step.t >= |w.threads| then None
    else
      var c, th := w.counters, w.threads[step.t];
      match step
      case Reserve(t) =>
        if th.mode != Running then None
        else
          var (d, granted) := Reserved(c);
          Some((World(d, w.threads[t := th.(held := th.held + if granted then 1 else 0)]), Replied(granted)))
      case ReserveWhenAvailable(t, timed) =>
        if th.mode != Running then None else Some(Look(w, t, timed))
      case LookAgain(t) =>
        if th.mode != Woken then None else Some(Look(w, t, th.timed))
      case TimeOut(t) =>
        if th.mode == Running || !th.timed then None
        else if Ready(c) then Some(Look(w, t, true))
        else Some((w.(threads := w.threads[t := th.(mode := Running)]), Replied(false)))
      case Settle(t, spend) =>
        if th.mode != Running || th.held == 0 || c.inFlight <= 0 then None
        else Some((World(Charged(c, spend), WakeAll(w.threads[t := th.(held := th.held - 1)])), Silent))
  }

  function HeldBy(threads: seq<Thread>): nat {
    if threads == [] then 0 else threads[0].held + HeldBy(threads[1..])
  }

  /** The caps and counts agree with what threads hold, and nobody sleeps through a true wait predicate. */
  ghost predicate Sound(w: World) {
    var c := w.counters;
    && 0 <= c.inFlight == HeldBy(w.threads)
    && c.spend + c.inFlight <= c.cap
    && c.calls >= c.inFlight
    && (forall i :: 0 <= i < |w.threads| && w.threads[i].mode == Asleep ==> !Ready(c))
  }

  lemma {:induction false} HeldAfter(threads: seq<Thread>, t: nat, th: Thread)
    requires t < |threads|
    ensures HeldBy(threads[t := th]) == HeldBy(threads) - threads[t].held + th.held
    ensures threads[t].held <= HeldBy(threads)
  {
    if t > 0 {
      HeldAfter(threads[1..], t - 1, th);
      assert threads[t := th][1..] == threads[1..][t - 1 := th];
    } else {
      assert threads[t := th][1..] == threads[1..];
    }
  }

  lemma {:induction false} HeldAwake(threads: seq<Thread>)
    ensures HeldBy(WakeAll(threads)) == HeldBy(threads)
  {
    if threads != [] {
      HeldAwake(threads[1..]);
      assert WakeAll(threads)[1..] == WakeAll(threads[1..]);
    }
  }

  lemma {:induction false} SomeHolder(threads: seq<Thread>)
    requires HeldBy(threads) > 0
    ensures exists i :: 0 <= i < |threads| && threads[i].held > 0
  {
    if threads[0].held == 0 {
      SomeHolder(threads[1..]);
      var i :| 0 <= i < |threads[1..]| && threads[1..][i].held > 0;
      assert threads[i + 1].held > 0;
    }
  }

  lemma LookSound(w: World, t: nat, timed: bool)
    requires Sound(w) && t < |w.threads|
    ensures Sound(Look(w, t, timed).0)
    ensures Look(w, t, timed).1 == Replied(false) ==> w.counters.spend == w.counters.cap
  {
    var th := w.threads[t];
    HeldAfter(w.threads, t, th.(mode := Asleep, timed := timed));
    HeldAfter(w.threads, t, th.(mode := Running));
    HeldAfter(w.threads, t, th.(mode := Running, held := th.held + 1));
  }

  lemma ReserveSound(w: World, t: nat)
    requires Sound(w) && t < |w.threads|
    ensures var (c, granted) := Reserved(w.counters);
      Sound(World(c, w.threads[t := w.threads[t].(held := w.threads[t].held + if granted then 1 else 0)]))
  {
    HeldAfter(w.threads, t, w.threads[t].(held := w.threads[t].held + 1));
    HeldAfter(w.threads, t, w.threads[t].(held := w.threads[t].held + 0));
  }

  lemma TimeOutSound(w: World, t: nat)
    requires Sound(w) && t < |w.threads|
    ensures Sound(w.(threads := w.threads[t := w.threads[t].(mode := Running)]))
  {
    HeldAfter(w.threads, t, w.threads[t].(mode := Running));
  }

  lemma SettleSound(w: World, t: nat, spend: bool)
    requires Sound(w) && t < |w.threads| && w.threads[t].held > 0
    ensures var settled := w.threads[t := w.threads[t].(held := w.threads[t].held - 1)];
      Sound(World(Charged(w.counters, spend), WakeAll(settled)))
  {
    var th := w.threads[t];
    HeldAfter(w.threads, t, th.(held := th.held - 1));
    HeldAwake(w.threads[t := th.(held := th.held - 1)]);
  }

  lemma StepSound(w: World, step: Step)
    requires Sound(w) && Next(w, step).Some?
    ensures Sound(Next(w, step).value.0)
    ensures var d, e := w.counters, Next(w, step).value.0.counters;
      && e.cap == d.cap
      && e.calls - (e.spend + e.infra + e.inFlight) == d.calls - (d.spend + d.infra + d.inFlight)
  {
    match step
    case Reserve(t) => ReserveSound(w, t);
    case ReserveWhenAvailable(t, timed) => LookSound(w, t, timed);
    case LookAgain(t) => LookSound(w, t, w.threads[t].timed);
    case TimeOut(t) =>
      LookSound(w, t, true);
      TimeOutSound(w, t);
    case Settle(t, spend) => SettleSound(w, t, spend);
  }

  /**
   * What every step does to the counters and what it replies: a free slot is granted, the true cap refused, and
   * between the two a thread sleeps unless its timeout is over.
   */
  lemma StepExact(w: World, step: Step)
    requires Next(w, step).Some?
    ensures var c, d, reply := w.counters, Next(w, step).value.0.counters, Next(w, step).value.1;
      var free := c.spend < c.cap && c.spend + c.inFlight < c.cap;
      && (reply == Replied(true) <==>
            if step.Reserve? then c.spend + c.inFlight < c.cap else free && !step.Settle?)
      && (reply == Silent <==>
            step.Settle? || (!step.Reserve? && !step.TimeOut? && c.spend < c.cap <= c.spend + c.inFlight))
      && d == (if reply == Replied(true) then Counters(c.cap, c.spend, c.infra, c.calls + 1, c.inFlight + 1)
               else if !step.Settle? then c
               else if step.spend then Counters(c.cap, c.spend + 1, c.infra, c.calls, c.inFlight - 1)
               else Counters(c.cap, c.spend, c.infra + 1, c.calls, c.inFlight - 1))
  {
  }

  /** The settled attempts of a run that were charged as spend, or as infrastructure failures. */
  function SettledAs(steps: seq<Step>, spend: bool): nat {
    if steps == [] then 0
    else
      SettledAs(steps[..|steps| - 1], spend)
      + if steps[|steps| - 1].Settle? && steps[|steps| - 1].spend == spend then 1 else 0
  }

  function Run(w: World, steps: seq<Step>): Option<World> {
    if steps == [] then Some(w)
    else
      match Run(w, steps[..|steps| - 1])
      case None => None
      case Some(v) => match Next(v, steps[|steps| - 1]) case None => None case Some((x, _)) => Some(x)
  }

  function Begin(cap: int, prior: Charge, threads: nat): (w: World)
    ensures |w.threads| == threads
    ensures forall i :: 0 <= i < threads ==> w.threads[i] == Thread(0, Running, false)
  {
    World(Counters(cap, prior.spend, prior.infra, prior.calls, 0), seq(threads, _ => Thread(0, Running, false)))
  }

  lemma {:induction false} BeginHeld(cap: int, prior: Charge, threads: nat)
    ensures HeldBy(Begin(cap, prior, threads).threads) == 0
  {
    if threads > 0 {
      BeginHeld(cap, prior, threads - 1);
      assert Begin(cap, prior, threads).threads[1..] == Begin(cap, prior, threads - 1).threads;
    }
  }

  /** Any interleaving of any number of threads: the cap covers every reservation and no call goes uncounted. */
  lemma {:induction false} AnyInterleaving(cap: int, prior: Charge, threads: nat, steps: seq<Step>)
    requires prior.spend <= cap && Run(Begin(cap, prior, threads), steps).Some?
    ensures var w := Run(Begin(cap, prior, threads), steps).value;
      && Sound(w) && w.counters.cap == cap
      && w.counters.calls - prior.calls ==
         w.counters.spend + w.counters.infra + w.counters.inFlight - (prior.spend + prior.infra)
      && w.counters.spend == prior.spend + SettledAs(steps, true)
      && w.counters.infra == prior.infra + SettledAs(steps, false)
  {
    if steps == [] {
      BeginHeld(cap, prior, threads);
    } else {
      AnyInterleaving(cap, prior, threads, steps[..|steps| - 1]);
      StepSound(Run(Begin(cap, prior, threads), steps[..|steps| - 1]).value, steps[|steps| - 1]);
      StepExact(Run(Begin(cap, prior, threads), steps[..|steps| - 1]).value, steps[|steps| - 1]);
    }
  }

  /** A settle is never refused for lack of in-flight attempts: a running holder can always settle. */
  lemma HolderCanSettle(w: World, t: nat, spend: bool)
    requires Sound(w) && t < |w.threads| && w.threads[t].held > 0 && w.threads[t].mode == Running
    ensures Next(w, Settle(t, spend)).Some?
  {
    HeldAfter(w.threads, t, w.threads[t]);
  }

  // ----- whether a sleeper is ever woken -----

  /** A thread that can still settle: it holds a reservation and runs, or its wait will time out. */
  predicate CanFree(th: Thread) {
    th.held > 0 && (th.mode == Running || th.timed)
  }

  ghost predicate SomeCanFree(w: World) {
    exists k :: 0 <= k < |w.threads| && CanFree(w.threads[k])
  }

  /** A possible run in which some attempt is settled. */
  ghost predicate Settles(w: World, steps: seq<Step>) {
    Run(w, steps).Some? && exists j :: 0 <= j < |steps| && steps[j].Settle?
  }

  /** A possible run after which thread i no longer sleeps. */
  ghost predicate Wakes(w: World, steps: seq<Step>, i: nat) {
    Run(w, steps).Some? && i < |Run(w, steps).value.threads| && Run(w, steps).value.threads[i].mode != Asleep
  }

  /** The wait predicate is false and no thread can settle. */
  ghost predicate Stuck(w: World) {
    !Ready(w.counters) && !SomeCanFree(w)
  }

  /** Without a thread that can settle, no step settles, and no step brings such a thread back. */
  lemma StuckStep(w: World, step: Step)
    requires Stuck(w) && Next(w, step).Some?
    ensures !step.Settle?
    ensures Stuck(Next(w, step).value.0)
    ensures |Next(w, step).value.0.threads| == |w.threads|
    ensures forall i :: 0 <= i < |w.threads| && w.threads[i].mode == Asleep && !w.threads[i].timed ==>
              Next(w, step).value.0.threads[i] == w.threads[i]
  {
  }

  lemma {:induction false} StuckRun(w: World, steps: seq<Step>)
    requires Stuck(w) && Run(w, steps).Some?
    ensures !Settles(w, steps)
    ensures var v := Run(w, steps).value;
      && Stuck(v) && |v.threads| == |w.threads|
      && forall i :: 0 <= i < |w.threads| && w.threads[i].mode == Asleep && !w.threads[i].timed ==>
           v.threads[i] == w.threads[i]
  {
    if steps != [] {
      var n := |steps| - 1;
      StuckRun(w, steps[..n]);
      StuckStep(Run(w, steps[..n]).value, steps[n]);
      forall j | 0 <= j < |steps|
        ensures !steps[j].Settle?
      {
        assert j < n ==> steps[..n][j] == steps[j];
      }
    }
  }

  lemma RunOne(w: World, step: Step)
    requires Next(w, step).Some?
    ensures Run(w, [step]) == Some(Next(w, step).value.0)
  {
    assert [step][..0] == [];
    assert Run(w, []) == Some(w);
  }

  lemma RunTwo(w: World, first: Step, second: Step)
    requires Next(w, first).Some? && Next(Next(w, first).value.0, second).Some?
    ensures Run(w, [first, second]) == Some(Next(Next(w, first).value.0, second).value.0)
  {
    assert [first, second][..1] == [first];
    RunOne(w, first);
  }

  /** A thread that can settle does so within two steps, and then thread i does not sleep any more. */
  lemma FreesWithinTwo(w: World, i: nat, k: nat) returns (steps: seq<Step>)
    requires Sound(w) && i < |w.threads| && w.threads[i].mode == Asleep
    requires k < |w.threads| && CanFree(w.threads[k])
    ensures |steps| <= 2 && Settles(w, steps) && Wakes(w, steps, i)
  {
    if w.threads[k].mode == Running {
      HolderCanSettle(w, k, true);
      RunOne(w, Settle(k, true));
      steps := [Settle(k, true)];
      assert steps[0].Settle?;
    } else {
      StepSound(w, TimeOut(k));
      HolderCanSettle(Next(w, TimeOut(k)).value.0, k, true);
      RunTwo(w, TimeOut(k), Settle(k, true));
      steps := [TimeOut(k), Settle(k, true)];
      assert steps[1].Settle?;
    }
  }

  /**
   * While a thread sleeps, a settle remains possible exactly if some reservation is held by a thread that can
   * settle.
   */
  lemma SettleRemains(w: World, i: nat)
    requires Sound(w) && i < |w.threads| && w.threads[i].mode == Asleep
    ensures (exists steps :: Settles(w, steps)) <==> SomeCanFree(w)
  {
    if SomeCanFree(w) {
      var k :| 0 <= k < |w.threads| && CanFree(w.threads[k]);
      var steps := FreesWithinTwo(w, i, k);
    } else {
      forall steps | Run(w, steps).Some?
        ensures !Settles(w, steps)
      {
        StuckRun(w, steps);
      }
    }
  }

  /** A thread that sleeps without a timeout is woken in some run exactly under the same condition. */
  lemma SleeperIsWoken(w: World, i: nat)
    requires Sound(w) && i < |w.threads| && w.threads[i].mode == Asleep && !w.threads[i].timed
    ensures (exists steps :: Wakes(w, steps, i)) <==> SomeCanFree(w)
  {
    if SomeCanFree(w) {
      var k :| 0 <= k < |w.threads| && CanFree(w.threads[k]);
      var steps := FreesWithinTwo(w, i, k);
    } else {
      forall steps | Run(w, steps).Some?
        ensures !Wakes(w, steps, i)
      {
        StuckRun(w, steps);
      }
    }
  }

  /** If waiters hold nothing, the condition always holds: some running thread holds an attempt in flight. */
  lemma FreeHandedWaiters(w: World, i: nat)
    requires Sound(w) && i < |w.threads| && w.threads[i].mode == Asleep
    requires forall k :: 0 <= k < |w.threads| && w.threads[k].mode != Running ==> w.threads[k].held == 0
    ensures SomeCanFree(w)
  {
    SomeHolder(w.threads);
    var t :| 0 <= t < |w.threads| && w.threads[t].held > 0;
    assert CanFree(w.threads[t]);
  }

  /** With nothing in flight nobody sleeps. */
  lemma QuietMeansAwake(w: World, i: nat)
    requires Sound(w) && i < |w.threads| && w.counters.inFlight == 0
    ensures w.threads[i].mode != Asleep
  {
  }

  /** A wait without a timeout is refused only at the true cap. */
  lemma RefusedAtTrueCap(w: World, step: Step)
    requires Sound(w) && Next(w, step).Some? && Next(w, step).value.1 == Replied(false)
    requires step.ReserveWhenAvailable? || step.LookAgain?
    ensures w.counters.spend == w.counters.cap && w.counters.inFlight == 0
  {
    LookSound(w, step.t, if step.LookAgain? then w.threads[step.t].timed else step.timed);
  }

  /** The condition does fail: a thread that waits for its own reservation to settle sleeps through every run. */
  lemma WaitingOnOneself() returns (steps: seq<Step>)
    ensures var w0 := Begin(1, Charge(0, 0, 0), 1);
      && Run(w0, steps).Some?
      && Run(w0, steps).value.threads[0] == Thread(1, Asleep, false)
      && forall more :: !Wakes(Run(w0, steps).value, more, 0) && !Settles(Run(w0, steps).value, more)
  {
    var w0 := Begin(1, Charge(0, 0, 0), 1);
    steps := [Reserve(0), ReserveWhenAvailable(0, false)];
    RunTwo(w0, Reserve(0), ReserveWhenAvailable(0, false));
    AnyInterleaving(1, Charge(0, 0, 0), 1, steps);
    var w := Run(w0, steps).value;
    assert !SomeCanFree(w);
    SettleRemains(w, 0);
    SleeperIsWoken(w, 0);
  }
}
