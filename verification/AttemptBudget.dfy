/** The three-cap attempt budget under any interleaving of threads (src/karc/bench/e10_horizon_execution.py). */
module AttemptBudget {
  import opened Collections
  import opened AttemptLedger

  datatype Caps = Caps(spend: int, infra: int, total: int)

  datatype Counters = Counters(spend: nat, infra: nat, calls: nat, inFlight: int)

  predicate WithinCaps(caps: Caps, c: Counters) {
    c.spend <= caps.spend && c.infra <= caps.infra && c.calls <= caps.total
  }

  predicate CanReserve(caps: Caps, c: Counters) {
    c.spend + c.inFlight < caps.spend && c.infra + c.inFlight < caps.infra && c.calls + c.inFlight < caps.total
  }

  datatype SettleError = NoReservation | CapExceeded

  datatype SettleResult = Charged(spend: nat, infra: nat) | SettleFailed(error: SettleError)

  /** The caps hold, and would still hold whatever way every outstanding attempt is charged. */
  ghost predicate Covered(caps: Caps, c: Counters) {
    && c.inFlight >= 0
    && c.spend + c.inFlight <= caps.spend
    && c.infra + c.inFlight <= caps.infra
    && c.calls + c.inFlight <= caps.total
  }

  function Opening(prior: Charge): Counters {
    Counters(prior.spend, prior.infra, prior.calls, 0)
  }

  class HardAttemptBudget {
    const caps: Caps
    var counters: Counters

    /** The historical ledger must be within the caps; otherwise construction raises ValueError (see Open). */
    constructor (caps: Caps, prior: Charge)
      requires WithinCaps(caps, Opening(prior))
      ensures this.caps == caps && counters == Opening(prior)
      ensures Covered(caps, counters)
    {
      this.caps := caps;
      counters := Opening(prior);
    }

    method Reserve() returns (granted: bool)
      modifies this
      ensures granted <==> CanReserve(caps, old(counters))
      ensures var c := old(counters);
        granted <==> c.inFlight < caps.spend - c.spend && c.inFlight < caps.infra - c.infra
                     && c.inFlight < caps.total - c.calls
      ensures counters == if granted then old(counters).(inFlight := old(counters).inFlight + 1) else old(counters)
      ensures old(Covered(caps, counters)) ==> Covered(caps, counters)
    {
      if counters.spend + counters.inFlight >= caps.spend
         || counters.infra + counters.inFlight >= caps.infra
         || counters.calls + counters.inFlight >= caps.total {
        return false;
      }
      counters := counters.(inFlight := counters.inFlight + 1);
      granted := true;
    }

    /** The second RuntimeError is raised after the counters have changed, as in the original. */
    method Settle(result: CallResult) returns (r: SettleResult)
      modifies this
      ensures (counters, r) == Settled(caps, old(counters), IsModelSpend(result))
      ensures old(Covered(caps, counters)) && old(counters).inFlight > 0 ==> r.Charged? && Covered(caps, counters)
      ensures old(counters).inFlight > 0 ==>
        && counters.calls == old(counters).calls + 1 && counters.inFlight == old(counters).inFlight - 1
        && counters.spend + counters.infra == old(counters).spend + old(counters).infra + 1
        && (counters.spend == old(counters).spend <==>
              && result.failed && result.gross <= 0 && result.freshInput <= 0
              && result.output <= 0 && result.reasoning <= 0)
        && (r.Charged? ==> r.spend == counters.spend - old(counters).spend && r.infra == 1 - r.spend)
        && (r == SettleFailed(CapExceeded) <==>
              counters.spend > caps.spend || counters.infra > caps.infra || counters.calls > caps.total)
    {
      var spend := if IsModelSpend(result) then 1 else 0;
      if counters.inFlight <= 0 {
        return SettleFailed(NoReservation);
      }
      counters := Counters(counters.spend + spend, counters.infra + (1 - spend), counters.calls + 1,
                           counters.inFlight - 1);
      if !WithinCaps(caps, counters) {
        return SettleFailed(CapExceeded);
      }
      r := Charged(spend, 1 - spend);
    }
  }

  function Settled(caps: Caps, c: Counters, spend: bool): (Counters, SettleResult) {
    if c.inFlight <= 0 then (c, SettleFailed(NoReservation))
    else
      var s := if spend then 1 else 0;
      var d := Counters(c.spend + s, c.infra + (1 - s), c.calls + 1, c.inFlight - 1);
      (d, if WithinCaps(caps, d) then Charged(s, 1 - s) else SettleFailed(CapExceeded))
  }

  /** HardAttemptBudget(rows): None stands for a ValueError, of the rows or of the caps. */
  method Open(caps: Caps, rows: seq<Row>) returns (b: HardAttemptBudget?)
    ensures b == null <==>
      Ledger(rows).None? ||
      var l := Ledger(rows).value; l.spend > caps.spend || l.infra > caps.infra || l.calls > caps.total
    ensures b != null ==>
      && b.caps == caps && Ledger(rows).Some? && Covered(caps, b.counters)
      && var l := Ledger(rows).value;
         b.counters == Counters(l.spend, l.infra, l.calls, 0)
  {
    var prior := LedgerFromRows(rows);
    if prior.None? || !WithinCaps(caps, Opening(prior.value)) {
      return null;
    }
    b := new HardAttemptBudget(caps, prior.value);
  }

  // ----- threads -----

  /** One atomic call of some thread, in the order in which the lock serialises them. */
  datatype Call = Reserve(thread: nat) | Settle(thread: nat, spend: bool)

  /** The counters and how many reservations each thread still holds. */
  datatype World = World(counters: Counters, held: seq<nat>)

  function SumOf(held: seq<nat>): nat {
    if held == [] then 0 else held[0] + SumOf(held[1..])
  }

  /** A thread settles only what it reserved; None marks a call that breaks this or that raises an error. */
  function Next(caps: Caps, w: World, call: Call): Option<World> {
    match call
    case Reserve(t) =>
      if t >= |w.held| then None
      else if CanReserve(caps, w.counters) then
        Some(World(w.counters.(inFlight := w.counters.inFlight + 1), w.held[t := w.held[t] + 1]))
      else Some(w)
    case Settle(t, spend) =>
      if t >= |w.held| || w.held[t] == 0 then None
      else
        var (c, r) := Settled(caps, w.counters, spend);
        if r.SettleFailed? then None else Some(World(c, w.held[t := w.held[t] - 1]))
  }

  /** The call respects the discipline: an existing thread, and a reservation to settle. */
  predicate Disciplined(w: World, call: Call) {
    call.thread < |w.held| && (call.Settle? ==> w.held[call.thread] > 0)
  }

  ghost predicate Sound(caps: Caps, w: World) {
    Covered(caps, w.counters) && w.counters.inFlight == SumOf(w.held)
  }

  lemma {:induction false} SumAfter(held: seq<nat>, t: nat, v: nat)
    requires t < |held|
    ensures SumOf(held[t := v]) == SumOf(held) - held[t] + v
  {
    if t > 0 {
      SumAfter(held[1..], t - 1, v);
      assert held[t := v][1..] == held[1..][t - 1 := v];
    } else {
      assert held[t := v][1..] == held[1..];
    }
  }

  /** No disciplined call raises, and the caps stay covered. */
  lemma StepSound(caps: Caps, w: World, call: Call)
    requires Sound(caps, w) && Disciplined(w, call)
    ensures Next(caps, w, call).Some? && Sound(caps, Next(caps, w, call).value)
    ensures |Next(caps, w, call).value.held| == |w.held|
  {
    var t := call.thread;
    match call
    case Reserve(_) => SumAfter(w.held, t, w.held[t] + 1);
    case Settle(_, _) =>
      SumAfter(w.held, t, w.held[t] - 1);
      SumAfter(w.held, t, 0);
  }

  function Run(caps: Caps, w: World, calls: seq<Call>): Option<World> {
    if calls == [] then Some(w)
    else
      match Run(caps, w, calls[..|calls| - 1])
      case None => None
      case Some(v) => Next(caps, v, calls[|calls| - 1])
  }

  /** Every call of the interleaving is disciplined at the point where it happens. */
  ghost predicate DisciplinedRun(caps: Caps, w: World, calls: seq<Call>) {
    calls == [] ||
    (DisciplinedRun(caps, w, calls[..|calls| - 1]) &&
     (Run(caps, w, calls[..|calls| - 1]).Some? ==>
        Disciplined(Run(caps, w, calls[..|calls| - 1]).value, calls[|calls| - 1])))
  }

  function Idle(threads: nat): (r: seq<nat>)
    ensures |r| == threads && forall i :: 0 <= i < threads ==> r[i] == 0
  {
    seq(threads, _ => 0)
  }

  lemma {:induction false} IdleSum(threads: nat)
    ensures SumOf(Idle(threads)) == 0
  {
    if threads > 0 {
      IdleSum(threads - 1);
      assert Idle(threads)[1..] == Idle(threads - 1);
    }
  }

  /** The settled attempts of a run that were charged as spend, or as infrastructure failures. */
  function SettledAs(calls: seq<Call>, spend: bool): nat {
    if calls == [] then 0
    else
      SettledAs(calls[..|calls| - 1], spend)
      + if calls[|calls| - 1].Settle? && calls[|calls| - 1].spend == spend then 1 else 0
  }

  /** Any number of threads, any interleaving: neither RuntimeError is reachable and no cap can be broken. */
  lemma {:induction false} AnyInterleaving(caps: Caps, prior: Charge, threads: nat, calls: seq<Call>)
    requires WithinCaps(caps, Opening(prior))
    requires DisciplinedRun(caps, World(Opening(prior), Idle(threads)), calls)
    ensures var w0 := World(Opening(prior), Idle(threads));
      && Run(caps, w0, calls).Some?
      && var w := Run(caps, w0, calls).value;
         && Sound(caps, w)
         && |w.held| == threads
         && w.counters.spend == prior.spend + SettledAs(calls, true)
         && w.counters.infra == prior.infra + SettledAs(calls, false)
         && w.counters.calls == prior.calls + SettledAs(calls, true) + SettledAs(calls, false)
  {
    var w0 := World(Opening(prior), Idle(threads));
    if calls == [] {
      IdleSum(threads);
    } else {
      AnyInterleaving(caps, prior, threads, calls[..|calls| - 1]);
      StepSound(caps, Run(caps, w0, calls[..|calls| - 1]).value, calls[|calls| - 1]);
    }
  }

  /** The discipline is needed: a settle without a reservation fails, whatever the caps. */
  lemma SettleNeedsReservation(caps: Caps, c: Counters, spend: bool)
    requires Covered(caps, c)
    ensures Settled(caps, c, spend).1.SettleFailed? <==> c.inFlight == 0
    ensures Settled(caps, c, spend).1.SettleFailed? ==> Settled(caps, c, spend) == (c, SettleFailed(NoReservation))
  {
  }
}
