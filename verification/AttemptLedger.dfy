/** Attempt accounting: what a call debits, what a retained row says, and the ledger of a run log
    (src/karc/bench/e5_runtime_accounting.py). */
module AttemptLedger {
  import opened Collections

  function Nonnegative(v: int): nat {
    if v < 0 then 0 else v
  }

  /** The result of one model call; token counts as the runtime reports them. */
  datatype CallResult = CallResult(failed: bool, gross: int, freshInput: int, output: int, reasoning: int)

  predicate IsModelSpend(r: CallResult) {
    !r.failed || Nonnegative(r.gross) + Nonnegative(r.freshInput) + Nonnegative(r.output) + Nonnegative(r.reasoning) > 0
  }

  /** A retained row; a missing field is None. complete says that failure_class is ok or task. */
  datatype Row = Row(
    apiAttempts: Option<int>, modelSpend: Option<int>, infraFailures: Option<int>,
    complete: bool, usage: seq<int>)

  datatype Charge = Charge(calls: nat, spend: nat, infra: nat)

  function Total(usage: seq<int>): nat {
    if usage == [] then 0 else Nonnegative(usage[0]) + Total(usage[1..])
  }

  function Field(v: Option<int>, default: nat): nat {
    match v case None => default case Some(n) => Nonnegative(n)
  }

  predicate Legacy(row: Row) {
    row.modelSpend.None? && row.infraFailures.None?
  }

  /** None stands for the ValueError of a row whose attempts exceed its calls. */
  function InferRow(row: Row): Option<Charge> {
    var calls := Field(row.apiAttempts, 1);
    if !Legacy(row) then
      var spend, infra := Field(row.modelSpend, 0), Field(row.infraFailures, 0);
      if spend + infra > calls then None
      else Some(Charge(calls, spend, infra + (calls - spend - infra)))
    else
      var spend := if row.complete || Total(row.usage) > 0 then 1 else 0;
      Some(Charge(calls, spend, if calls > spend then calls - spend else 0))
  }

  function Ledger(rows: seq<Row>): Option<Charge> {
    if rows == [] then Some(Charge(0, 0, 0))
    else
      match Ledger(rows[..|rows| - 1])
      case None => None
      case Some(sum) =>
        match InferRow(rows[|rows| - 1])
        case None => None
        case Some(c) => Some(Charge(sum.calls + c.calls, sum.spend + c.spend, sum.infra + c.infra))
  }

  method LedgerFromRows(rows: seq<Row>) returns (r: Option<Charge>)
    ensures r == Ledger(rows)
    ensures r.None? <==> exists i :: 0 <= i < |rows| && Overdrawn(rows[i])
    ensures r.Some? ==>
      && r.value.calls == CallsOf(rows)
      && r.value.spend == ReportedSpend(rows) + |LegacySpenders(rows)|
      && r.value.spend + r.value.infra == r.value.calls + |UncalledRows(rows)|
  {
    var calls: nat, spend: nat, infra: nat := 0, 0, 0;
    for i := 0 to |rows|
      invariant Ledger(rows[..i]) == Some(Charge(calls, spend, infra))
    {
      assert rows[..i + 1][..i] == rows[..i];
      var c := InferRow(rows[i]);
      if c.None? {
        LedgerFails(rows, i + 1);
        RejectedIffOverdrawn(rows);
        return None;
      }
      calls, spend, infra := calls + c.value.calls, spend + c.value.spend, infra + c.value.infra;
    }
    assert rows[..|rows|] == rows;
    r := Some(Charge(calls, spend, infra));
    LedgerBalance(rows);
    RejectedIffOverdrawn(rows);
  }

  lemma {:induction false} LedgerFails(rows: seq<Row>, i: nat)
    requires i <= |rows| && Ledger(rows[..i]).None?
    ensures Ledger(rows).None?
  {
    if i == |rows| {
      assert rows[..i] == rows;
    } else {
      assert rows[..|rows| - 1][..i] == rows[..i];
      LedgerFails(rows[..|rows| - 1], i);
    }
  }

  // ----- what the ledger of a log says, row by row -----

  /** A call is free exactly if it failed without any sign of inference. */
  lemma FreeCall(r: CallResult)
    ensures !IsModelSpend(r) <==> r.failed && r.gross <= 0 && r.freshInput <= 0 && r.output <= 0 && r.reasoning <= 0
  {
  }

  /** The calls of a log: one for a row that does not say how many. */
  function CallsOf(rows: seq<Row>): nat {
    if rows == [] then 0
    else
      CallsOf(rows[..|rows| - 1]) +
      match rows[|rows| - 1].apiAttempts
      case None => 1
      case Some(n) => if n > 0 then n else 0
  }

  /** The model spend that the rows of a log report themselves. */
  function ReportedSpend(rows: seq<Row>): nat {
    if rows == [] then 0
    else
      ReportedSpend(rows[..|rows| - 1]) +
      match rows[|rows| - 1].modelSpend
      case None => 0
      case Some(n) => if n > 0 then n else 0
  }

  /** A row without attempt fields whose model call finished or used tokens. */
  ghost predicate LegacySpender(row: Row) {
    && row.modelSpend.None? && row.infraFailures.None?
    && (row.complete || exists i :: 0 <= i < |row.usage| && row.usage[i] > 0)
  }

  ghost function LegacySpenders(rows: seq<Row>): set<nat> {
    set i: nat | i < |rows| && LegacySpender(rows[i])
  }

  /** The one kind of row that debits an attempt for which it records no call. */
  ghost predicate Uncalled(row: Row) {
    LegacySpender(row) && row.apiAttempts.Some? && row.apiAttempts.value <= 0
  }

  ghost function UncalledRows(rows: seq<Row>): set<nat> {
    set i: nat | i < |rows| && Uncalled(rows[i])
  }

  /** A row whose own attempt fields add up to more than its calls. */
  ghost predicate Overdrawn(row: Row) {
    && (row.modelSpend.Some? || row.infraFailures.Some?)
    && var spend := if row.modelSpend.Some? && row.modelSpend.value > 0 then row.modelSpend.value else 0;
       var infra := if row.infraFailures.Some? && row.infraFailures.value > 0 then row.infraFailures.value else 0;
       var calls := if row.apiAttempts.None? then 1 else if row.apiAttempts.value > 0 then row.apiAttempts.value else 0;
       spend + infra > calls
  }

  lemma {:induction false} PositiveUsage(usage: seq<int>)
    ensures Total(usage) > 0 <==> exists i :: 0 <= i < |usage| && usage[i] > 0
  {
    if usage != [] {
      PositiveUsage(usage[1..]);
      if i :| 0 <= i < |usage[1..]| && usage[1..][i] > 0 {
        assert usage[i + 1] > 0;
      }
      if i :| 0 <= i < |usage| && usage[i] > 0 {
        assert i > 0 ==> usage[1..][i - 1] > 0;
      }
    }
  }

  lemma SpendersSnoc(rows: seq<Row>)
    requires rows != []
    ensures var n := |rows| - 1;
      && |LegacySpenders(rows)| == |LegacySpenders(rows[..n])| + (if LegacySpender(rows[n]) then 1 else 0)
      && |UncalledRows(rows)| == |UncalledRows(rows[..n])| + (if Uncalled(rows[n]) then 1 else 0)
  {
    var n := |rows| - 1;
    assert forall i :: 0 <= i < n ==> rows[..n][i] == rows[i];
    assert LegacySpenders(rows) == LegacySpenders(rows[..n]) + (if LegacySpender(rows[n]) then {n} else {});
    assert UncalledRows(rows) == UncalledRows(rows[..n]) + (if Uncalled(rows[n]) then {n} else {});
  }

  /**
   * The spend of a log is what its rows report, and one for every row without attempt fields that shows inference.
   * Together with the infrastructure failures it makes up the calls, and one more for every such row without a call.
   */
  lemma {:induction false} LedgerBalance(rows: seq<Row>)
    requires Ledger(rows).Some?
    ensures var l := Ledger(rows).value;
      && l.calls == CallsOf(rows)
      && l.spend == ReportedSpend(rows) + |LegacySpenders(rows)|
      && l.spend + l.infra == l.calls + |UncalledRows(rows)|
  {
    if rows != [] {
      var n := |rows| - 1;
      LedgerBalance(rows[..n]);
      SpendersSnoc(rows);
      PositiveUsage(rows[n].usage);
    }
  }

  /** A log is rejected exactly if one of its rows reports more attempts than calls. */
  lemma {:induction false} RejectedIffOverdrawn(rows: seq<Row>)
    ensures Ledger(rows).None? <==> exists i :: 0 <= i < |rows| && Overdrawn(rows[i])
  {
    if rows != [] {
      var n := |rows| - 1;
      RejectedIffOverdrawn(rows[..n]);
      assert InferRow(rows[n]).None? <==> Overdrawn(rows[n]);
      assert forall i :: 0 <= i < n ==> rows[..n][i] == rows[i];
    }
  }
}
