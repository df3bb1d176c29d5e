/** Token components of a turn in the three usage formats, and the write-price threshold (scripts/verify.py). */
module TokenComponents {
  import opened Collections

  datatype Components = Components(
    uncached: int, creation: int, creation1h: int, creation5m: int, cacheRead: int, output: int, gross: int)
  {
    function Plus(c: Components): Components {
      Components(uncached + c.uncached, creation + c.creation, creation1h + c.creation1h, creation5m + c.creation5m,
                 cacheRead + c.cacheRead, output + c.output, gross + c.gross)
    }

    function Minus(c: Components): Components {
      Components(uncached - c.uncached, creation - c.creation, creation1h - c.creation1h, creation5m - c.creation5m,
                 cacheRead - c.cacheRead, output - c.output, gross - c.gross)
    }

    /** Gross input is uncached, written and read tokens; written tokens split into the two lifetimes. */
    ghost predicate Balanced() {
      gross == uncached + creation + cacheRead && creation == creation1h + creation5m
    }

    ghost predicate NonNegative() {
      uncached >= 0 && creation1h >= 0 && creation5m >= 0 && cacheRead >= 0 && output >= 0
    }
  }

  const ZERO: Components := Components(0, 0, 0, 0, 0, 0, 0)

  // ----- cumulative counters -----

  datatype Counters = Counters(input: int, cached: int, write: int, output: int, reasoning: int)

  const FRESH_SESSION: Counters := Counters(0, 0, 0, 0, 0)

  /** One call of the session transcript, the second route to the same numbers. */
  datatype Call = Call(input: int, uncached: int, write: int, cached: int, output: int, reasoning: int, total: int)

  datatype CodexRow = CodexRow(usage: Counters, calls: seq<Call>)

  function CallSum(calls: seq<Call>): (r: Call)
  {
    if calls == [] then Call(0, 0, 0, 0, 0, 0, 0)
    else
      var s, c := CallSum(calls[..|calls| - 1]), calls[|calls| - 1];
      Call(s.input + c.input, s.uncached + c.uncached, s.write + c.write, s.cached + c.cached, s.output + c.output,
           s.reasoning + c.reasoning, s.total + c.total)
  }

  predicate CallOk(c: Call) {
    c.input == c.uncached + c.write + c.cached && c.total == c.input + c.output && 0 <= c.reasoning <= c.output
  }

  /** What the checks of codex_components demand of a row that follows the counters of the row before. */
  ghost predicate CodexOk(previous: Counters, row: CodexRow) {
    var u, s := row.usage, CallSum(row.calls);
    && previous.input <= u.input && previous.cached <= u.cached && previous.write <= u.write
    && previous.output <= u.output && previous.reasoning <= u.reasoning
    && (u.cached - previous.cached) + (u.write - previous.write) <= u.input - previous.input
    && u.reasoning - previous.reasoning <= u.output - previous.output
    && row.calls != []
    && s.input == u.input - previous.input && s.cached == u.cached - previous.cached
    && s.write == u.write - previous.write
    && s.uncached == s.input - s.cached - s.write
    && s.output == u.output - previous.output && s.reasoning == u.reasoning - previous.reasoning
    && CallsOk(row.calls)
  }

  ghost predicate CallsOk(calls: seq<Call>) {
    forall c :: c in calls ==> CallOk(c)
  }

  method SumCalls(calls: seq<Call>) returns (s: Call, ok: bool)
    ensures s == CallSum(calls)
    ensures ok <==> CallsOk(calls)
  {
    s, ok := Call(0, 0, 0, 0, 0, 0, 0), true;
    for i := 0 to |calls|
      invariant s == CallSum(calls[..i])
      invariant ok <==> CallsOk(calls[..i])
    {
      assert calls[..i + 1] == calls[..i] + [calls[i]];
      var c := calls[i];
      s := Call(s.input + c.input, s.uncached + c.uncached, s.write + c.write, s.cached + c.cached, s.output + c.output,
                s.reasoning + c.reasoning, s.total + c.total);
      ok := ok && CallOk(c);
    }
    assert calls[..|calls|] == calls;
  }

  /** The components and reasoning tokens between two cumulative counters. */
  ghost predicate Difference(c: Components, reasoning: int, previous: Counters, u: Counters) {
    && c.Balanced() && c.NonNegative() && 0 <= reasoning <= c.output
    && c.gross == u.input - previous.input && c.creation == u.write - previous.write
    && c.cacheRead == u.cached - previous.cached && c.output == u.output - previous.output
    && c.creation1h == 0 && reasoning == u.reasoning - previous.reasoning
  }

  lemma DifferencesAdd(c: Components, r: int, d: Components, s: int, from: Counters, mid: Counters, to: Counters)
    requires Difference(c, r, from, mid) && Difference(d, s, mid, to)
    ensures Difference(c.Plus(d), r + s, from, to)
  {
  }

  /** codex_components: the difference of two cumulative counters; None stands for the ValueError. */
  method CodexComponents(row: CodexRow, previous: Counters) returns (r: Option<(Components, int)>)
    ensures r.None? <==> !CodexOk(previous, row)
    ensures r.Some? ==> Difference(r.value.0, r.value.1, previous, row.usage)
  {
    var u := row.usage;
    var input, cached, write := u.input - previous.input, u.cached - previous.cached, u.write - previous.write;
    var output, reasoning := u.output - previous.output, u.reasoning - previous.reasoning;
    if input < 0 || cached < 0 || write < 0 || output < 0 || reasoning < 0 {
      return None;
    }
    var uncached := input - cached - write;
    if uncached < 0 || reasoning > output || row.calls == [] {
      return None;
    }
    var s, ok := SumCalls(row.calls);
    if s.uncached != uncached || s.write != write || s.cached != cached || s.output != output || s.input != input
       || s.reasoning != reasoning || !ok {
      return None;
    }
    r := Some((Components(uncached, write, 0, write, cached, output, input), reasoning));
  }

  /** The counters after the first i rows of a session. */
  function CountersAt(rows: seq<CodexRow>, i: nat): Counters
    requires i <= |rows|
  {
    if i == 0 then FRESH_SESSION else rows[i - 1].usage
  }

  ghost predicate AcceptedAt(rows: seq<CodexRow>, i: nat)
    requires i < |rows|
  {
    CodexOk(CountersAt(rows, i), rows[i])
  }

  /**
   * A session of such rows: the summed differences telescope to the final cumulative counters, since a session starts
   * from zero.
   */
  method CodexSession(rows: seq<CodexRow>) returns (r: Option<(Components, int)>)
    ensures r.None? <==> exists i :: 0 <= i < |rows| && !AcceptedAt(rows, i)
    ensures r.Some? ==>
      var (c, reasoning), last := r.value, CountersAt(rows, |rows|);
      && Difference(c, reasoning, FRESH_SESSION, last)
      && c.gross == last.input == c.uncached + c.creation + c.cacheRead
      && c.creation == c.creation1h + c.creation5m == last.write && c.creation1h == 0
      && c.cacheRead == last.cached && c.uncached == last.input - last.write - last.cached
      && c.output == last.output && reasoning == last.reasoning
  {
    var acc, reasoning, previous := ZERO, 0, FRESH_SESSION;
    for i := 0 to |rows|
      invariant previous == CountersAt(rows, i)
      invariant forall j :: 0 <= j < i ==> AcceptedAt(rows, j)
      invariant Difference(acc, reasoning, FRESH_SESSION, previous)
    {
      var comp := CodexComponents(rows[i], previous);
      if comp.None? {
        assert !AcceptedAt(rows, i);
        return None;
      }
      DifferencesAdd(acc, reasoning, comp.value.0, comp.value.1, FRESH_SESSION, previous, rows[i].usage);
      acc := acc.Plus(comp.value.0);
      reasoning := reasoning + comp.value.1;
      previous := rows[i].usage;
    }
    r := Some((acc, reasoning));
  }

  function AllCalls(rows: seq<CodexRow>): seq<Call> {
    if rows == [] then [] else AllCalls(rows[..|rows| - 1]) + rows[|rows| - 1].calls
  }

  lemma {:induction false} CallSumConcat(a: seq<Call>, b: seq<Call>)
    ensures var s, t, u := CallSum(a), CallSum(b), CallSum(a + b);
      u.input == s.input + t.input && u.write == s.write + t.write && u.cached == s.cached + t.cached
      && u.output == s.output + t.output && u.reasoning == s.reasoning + t.reasoning
  {
    if b == [] {
      assert a + b == a;
    } else {
      CallSumConcat(a, b[..|b| - 1]);
      assert (a + b)[..|a + b| - 1] == a + b[..|b| - 1];
    }
  }

  /** The summed calls show the same tokens as the cumulative counters. */
  ghost predicate SameTotals(s: Call, k: Counters) {
    && s.input == k.input && s.write == k.write && s.cached == k.cached
    && s.output == k.output && s.reasoning == k.reasoning
  }

  lemma RowAgrees(before: seq<Call>, previous: Counters, row: CodexRow)
    requires SameTotals(CallSum(before), previous) && CodexOk(previous, row)
    ensures SameTotals(CallSum(before + row.calls), row.usage)
  {
    CallSumConcat(before, row.calls);
  }

  /** The second route agrees: the transcript calls of an accepted session add up to the final counters. */
  lemma {:induction false} TranscriptAgrees(rows: seq<CodexRow>)
    requires forall i :: 0 <= i < |rows| ==> AcceptedAt(rows, i)
    ensures SameTotals(CallSum(AllCalls(rows)), CountersAt(rows, |rows|))
  {
    if rows != [] {
      var n := |rows| - 1;
      var h := rows[..n];
      forall i | 0 <= i < n
        ensures AcceptedAt(h, i)
      {
        assert AcceptedAt(rows, i);
      }
      TranscriptAgrees(h);
      assert CountersAt(h, n) == CountersAt(rows, n);
      assert AcceptedAt(rows, n);
      RowAgrees(AllCalls(h), CountersAt(rows, n), rows[n]);
    }
  }

  // ----- per-call usage -----

  datatype PiCall = PiCall(
    input: int, cacheWrite: int, cacheWrite1h: Option<int>, cacheRead: int, output: int, total: int)

  datatype PiTurn = PiTurn(input: int, cacheWrite: int, cacheRead: int, output: int, reasoning: int)

  datatype PiRow = PiRow(calls: seq<PiCall>, turn: PiTurn, gross: int)

  function PiValues(c: PiCall): Components {
    var oneHour := if c.cacheWrite1h.Some? then c.cacheWrite1h.value else 0;
    Components(c.input, c.cacheWrite, oneHour, c.cacheWrite - oneHour, c.cacheRead, c.output,
               c.input + c.cacheWrite + c.cacheRead)
  }

  function PiSum(calls: seq<PiCall>): Components {
    if calls == [] then ZERO else PiSum(calls[..|calls| - 1]).Plus(PiValues(calls[|calls| - 1]))
  }

  /** The tokens that the calls report as written for one hour. */
  function OneHourWrites(calls: seq<PiCall>): int {
    if calls == [] then 0
    else
      OneHourWrites(calls[..|calls| - 1]) +
      match calls[|calls| - 1].cacheWrite1h
      case None => 0
      case Some(n) => n
  }

  lemma {:induction false} OneHourSum(calls: seq<PiCall>)
    ensures PiSum(calls).creation1h == OneHourWrites(calls)
  {
    if calls != [] {
      OneHourSum(calls[..|calls| - 1]);
    }
  }

  ghost predicate PiCallOk(c: PiCall) {
    PiValues(c).NonNegative() && PiValues(c).creation >= 0 && c.total == PiValues(c).gross + c.output
  }

  ghost predicate PiOk(row: PiRow) {
    var s := PiSum(row.calls);
    && row.calls != []
    && (forall i :: 0 <= i < |row.calls| ==> PiCallOk(row.calls[i]))
    && s.uncached == row.turn.input && s.creation == row.turn.cacheWrite && s.cacheRead == row.turn.cacheRead
    && s.output == row.turn.output && s.gross == row.gross
    && 0 <= row.turn.reasoning <= s.output
  }

  /** One call record passes the checks of the loop. */
  method PiCheck(c: PiCall) returns (ok: bool)
    ensures ok <==> PiCallOk(c)
  {
    var v := PiValues(c);
    ok := v.uncached >= 0 && v.creation >= 0 && v.creation1h >= 0 && v.creation5m >= 0 && v.cacheRead >= 0
          && v.output >= 0
          && v.gross >= 0 && c.total == v.gross + v.output;
  }

  method PiCalls(calls: seq<PiCall>) returns (r: Option<Components>)
    ensures r.Some? <==> forall i :: 0 <= i < |calls| ==> PiCallOk(calls[i])
    ensures r.Some? ==> r.value == PiSum(calls) && r.value.Balanced() && r.value.NonNegative()
  {
    var comp := ZERO;
    for i := 0 to |calls|
      invariant comp == PiSum(calls[..i]) && comp.Balanced() && comp.NonNegative()
      invariant forall j :: 0 <= j < i ==> PiCallOk(calls[j])
    {
      assert calls[..i + 1][..i] == calls[..i];
      var ok := PiCheck(calls[i]);
      if !ok {
        return None;
      }
      comp := comp.Plus(PiValues(calls[i]));
    }
    assert calls[..|calls|] == calls;
    r := Some(comp);
  }

  /** pi_components: the call records add up to the turn's own ledger. */
  method PiComponents(row: PiRow) returns (r: Option<(Components, int)>)
    ensures r.None? <==> !PiOk(row)
    ensures r.Some? ==>
      var (c, reasoning) := r.value;
      && c.Balanced() && c.NonNegative() && 0 <= reasoning <= c.output
      && c == PiSum(row.calls) && reasoning == row.turn.reasoning
      && c.gross == row.gross == row.turn.input + row.turn.cacheWrite + row.turn.cacheRead
      && c.creation1h == OneHourWrites(row.calls) && c.creation5m == row.turn.cacheWrite - OneHourWrites(row.calls)
  {
    if row.calls == [] {
      return None;
    }
    var comp := PiCalls(row.calls);
    if comp.None? {
      return None;
    }
    var c, t := comp.value, row.turn;
    if c.uncached != t.input || c.creation != t.cacheWrite || c.cacheRead != t.cacheRead || c.output != t.output
       || c.gross != row.gross || t.reasoning < 0 || t.reasoning > c.output {
      return None;
    }
    OneHourSum(row.calls);
    r := Some((c, t.reasoning));
  }

  // ----- provider-reported components -----

  /** claude_components: the fields are accepted exactly when they are consistent. */
  function ClaudeComponents(row: Components): (r: Option<Components>)
    ensures r.Some? <==> row.Balanced() && row.NonNegative()
    ensures r.Some? ==> r.value == row
  {
    if row.uncached < 0 || row.creation < 0 || row.creation1h < 0 || row.creation5m < 0 || row.cacheRead < 0
       || row.output < 0 || row.gross < 0 then None
    else if row.creation != row.creation1h + row.creation5m then None
    else if row.gross != row.uncached + row.creation + row.cacheRead then None
    else Some(row)
  }

  function Sum(cs: seq<Components>): Components {
    if cs == [] then ZERO else Sum(cs[..|cs| - 1]).Plus(cs[|cs| - 1])
  }

  /** Totals over turns, sessions and arms keep both identities. */
  lemma {:induction false} SumBalanced(cs: seq<Components>)
    requires forall i :: 0 <= i < |cs| ==> cs[i].Balanced() && cs[i].NonNegative()
    ensures Sum(cs).Balanced() && Sum(cs).NonNegative()
  {
    if cs != [] {
      SumBalanced(cs[..|cs| - 1]);
    }
  }

  // ----- prices and the write-price threshold -----

  datatype Card = Card(
    input: real, read: real, output: real, write: Option<real>, write1h: Option<real>, write5m: Option<real>)
  {
    function Flat(): real {
      if write.Some? then write.value else 0.0
    }

    function Write1h(): real {
      if write1h.Some? then write1h.value else Flat()
    }

    function Write5m(): real {
      if write5m.Some? then write5m.value else Flat()
    }
  }

  function Price(c: Components, card: Card): real {
    (c.uncached as real * card.input + c.cacheRead as real * card.read + c.output as real * card.output
     + c.creation1h as real * card.Write1h() + c.creation5m as real * card.Write5m()) / 1000000.0
  }

  /**
   * Written tokens cost what their lifetime costs; where the card has no price for a lifetime it charges the flat write
   * price, and nothing without one. With a flat price alone the two lifetimes cost the same.
   */
  lemma WrittenTokensCost(c: Components, card: Card)
    requires c.Balanced()
    ensures var rest := c.uncached as real * card.input + c.cacheRead as real * card.read
                        + c.output as real * card.output;
      var writes := 1000000.0 * Price(c, card) - rest;
      match (card.write1h, card.write5m, card.write)
      case (Some(h), Some(m), _) => writes == c.creation1h as real * h + c.creation5m as real * m
      case (Some(h), None, Some(w)) => writes == c.creation1h as real * h + c.creation5m as real * w
      case (None, Some(m), Some(w)) => writes == c.creation1h as real * w + c.creation5m as real * m
      case (None, None, Some(w)) => writes == c.creation as real * w
      case (Some(h), None, None) => writes == c.creation1h as real * h
      case (None, Some(m), None) => writes == c.creation5m as real * m
      case (None, None, None) => writes == 0.0
  {
    if card.write.Some? {
      Added(c.creation1h as real, c.creation5m as real, card.write.value);
    }
  }

  lemma Added(x: real, y: real, rate: real)
    ensures (x + y) * rate == x * rate + y * rate
  {
  }

  /** mu_w*: the write price, in units of the input price, at which both arms cost the same; None if undefined. */
  function Threshold(delta: Components, card: Card): Option<real>
    requires card.input != 0.0
  {
    if delta.creation == 0 then None
    else
      Some(-(delta.uncached as real + card.read / card.input * delta.cacheRead as real
             + card.output / card.input * delta.output as real) / delta.creation as real)
  }

  lemma PriceDifference(a: Components, b: Components, card: Card)
    ensures var d := a.Minus(b);
      1000000.0 * (Price(a, card) - Price(b, card)) ==
      d.uncached as real * card.input + d.cacheRead as real * card.read + d.output as real * card.output
      + d.creation1h as real * card.Write1h() + d.creation5m as real * card.Write5m()
  {
    Linear(a.uncached as real, b.uncached as real, card.input);
    Linear(a.cacheRead as real, b.cacheRead as real, card.read);
    Linear(a.output as real, b.output as real, card.output);
    Linear(a.creation1h as real, b.creation1h as real, card.Write1h());
    Linear(a.creation5m as real, b.creation5m as real, card.Write5m());
  }

  lemma Linear(x: real, y: real, rate: real)
    ensures (x - y) * rate == x * rate - y * rate
  {
  }

  /** What the extra written tokens cost on average, in units of the input price. */
  function WritePrice(delta: Components, card: Card): real
    requires card.input != 0.0 && delta.creation != 0
  {
    (delta.creation1h as real * card.Write1h() + delta.creation5m as real * card.Write5m())
      / (card.input * delta.creation as real)
  }

  lemma InPrice(p: real, a: real, b: real, c: real)
    ensures p * (a + b + c) == a * p + p * b + p * c
  {
  }

  lemma Scale(rate: real, p: real, x: real)
    requires p != 0.0
    ensures p * (rate / p * x) == x * rate
  {
    assert p * (rate / p) == rate;
    assert p * (rate / p * x) == (p * (rate / p)) * x;
  }

  lemma PerMillion(difference: real, p: real, gap: real)
    requires 1000000.0 * difference == p * gap
    ensures difference == p / 1000000.0 * gap
  {
    assert p / 1000000.0 * gap == (p * gap) / 1000000.0;
  }

  lemma WriteShare(writes: real, p: real, dc: real, rest: real)
    requires p != 0.0 && dc != 0.0
    ensures p * dc != 0.0
    ensures p * ((writes / (p * dc) - (-rest / dc)) * dc) == writes + p * rest
  {
    assert p * dc != 0.0;
    assert writes / (p * dc) * (p * dc) == writes;
    assert -rest / dc * dc == -rest;
  }

  /** Multiplied out, the gap between write price and threshold is the sum of all cost differences. */
  lemma GapInPrice(p: real, dc: real, writes: real, uncached: real, rate: real, hits: real, price: real, outputs: real)
    requires p != 0.0 && dc != 0.0
    ensures p * dc != 0.0
    ensures p * ((writes / (p * dc) - (-(uncached + rate / p * hits + price / p * outputs) / dc)) * dc) ==
            uncached * p + hits * rate + outputs * price + writes
  {
    WriteShare(writes, p, dc, uncached + rate / p * hits + price / p * outputs);
    InPrice(p, uncached, rate / p * hits, price / p * outputs);
    Scale(rate, p, hits);
    Scale(price, p, outputs);
  }

  /** In units of the input price, the cost difference is (mu_w - mu_w*) times the extra written tokens. */
  lemma CostAgainstThreshold(managed: Components, retrieval: Components, card: Card)
    requires card.input > 0.0 && managed.Minus(retrieval).creation != 0
    ensures var d := managed.Minus(retrieval);
      Price(managed, card) - Price(retrieval, card) ==
      card.input / 1000000.0 * ((WritePrice(d, card) - Threshold(d, card).value) * d.creation as real)
  {
    var d := managed.Minus(retrieval);
    PriceDifference(managed, retrieval, card);
    var p, dc := card.input, d.creation as real;
    var writes := d.creation1h as real * card.Write1h() + d.creation5m as real * card.Write5m();
    GapInPrice(p, dc, writes, d.uncached as real, card.read, d.cacheRead as real, card.output, d.output as real);
    var gap := (WritePrice(d, card) - Threshold(d, card).value) * dc;
    PerMillion(Price(managed, card) - Price(retrieval, card), p, gap);
  }

  /**
   * With one write price, the managed arm is cheaper exactly when (mu_w - mu_w*) times the extra writes is
   * negative.
   */
  lemma SignOfSavings(managed: Components, retrieval: Components, card: Card, write: real)
    requires card.input > 0.0 && managed.Balanced() && retrieval.Balanced()
    requires card.Write1h() == card.Write5m() == write
    requires managed.Minus(retrieval).creation != 0
    ensures var d := managed.Minus(retrieval);
      var gap := (write / card.input - Threshold(d, card).value) * d.creation as real;
      && (Price(managed, card) < Price(retrieval, card) <==> gap < 0.0)
      && (Price(managed, card) == Price(retrieval, card) <==> gap == 0.0)
  {
    var d := managed.Minus(retrieval);
    OnePrice(d.creation1h as real, d.creation5m as real, write, card.input);
    CostAgainstThreshold(managed, retrieval, card);
    SameSign(card.input / 1000000.0, (write / card.input - Threshold(d, card).value) * d.creation as real);
  }

  /** component_profile: over any accepted turns of the two arms, the threshold tells the sign of the savings. */
  lemma ProfileSign(managed: seq<Components>, retrieval: seq<Components>, card: Card, write: real)
    requires forall i :: 0 <= i < |managed| ==> managed[i].Balanced() && managed[i].NonNegative()
    requires forall i :: 0 <= i < |retrieval| ==> retrieval[i].Balanced() && retrieval[i].NonNegative()
    requires card.input > 0.0 && card.Write1h() == card.Write5m() == write
    ensures var a, b := Sum(managed), Sum(retrieval);
      match Threshold(a.Minus(b), card)
      case None => a.creation == b.creation
      case Some(star) =>
        Price(a, card) < Price(b, card) <==> (write / card.input - star) * (a.creation - b.creation) as real < 0.0
  {
    var a, b := Sum(managed), Sum(retrieval);
    SumBalanced(managed);
    SumBalanced(retrieval);
    if a.Minus(b).creation != 0 {
      SignOfSavings(a, b, card, write);
    }
  }

  lemma OnePrice(h: real, m: real, write: real, p: real)
    requires p != 0.0 && h + m != 0.0
    ensures p * (h + m) != 0.0
    ensures (h * write + m * write) / (p * (h + m)) == write / p
  {
    assert p * (h + m) != 0.0;
    assert h * write + m * write == write / p * (p * (h + m));
  }

  lemma SameSign(k: real, x: real)
    requires k > 0.0
    ensures k * x < 0.0 <==> x < 0.0
    ensures k * x == 0.0 <==> x == 0.0
  {
    if x > 0.0 {
      assert k * x > 0.0;
    }
  }
}
