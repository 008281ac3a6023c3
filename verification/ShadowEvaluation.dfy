/** The economic gate on shadow trades: row checks, one-pass metrics, and the report. */
module ShadowEvaluation {
  import opened Common
  import opened Options

  const MIN_SAMPLES := 100
  const MIN_CALENDAR_DAYS := 7
  const MIN_PROFIT_FACTOR := 1.2
  const MAX_DRAWDOWN_PERCENT := 10.0
  const MODELED_EQUITY_USD := 100.0
  const STRESS_CATASTROPHE := -10.0
  const VALID_REGIMES := {"quiet", "normal", "surge"}
  const VALID_EXIT_REASONS := {"take profit", "trailing stop", "break-even stop", "stalled trade", "stop loss",
                               "max hold time", "max position ticks"}

  /** A timestamp; a naive one has no time zone and is comparable to nothing. */
  datatype Stamp = Stamp(aware: bool, utc: int)

  /** `exitReason` is the normalised reason and `localDay` the New York calendar day. */
  datatype Row = Row(
    fixtureOnly: bool, evidenceMode: string, contaminated: bool, strategyVersion: string, completedAt: Stamp,
    localDay: int, landingStatus: string, exitReason: string, regime: string, evidenceIds: seq<string>,
    quoteId: string, entryAt: Option<Stamp>, quotedAt: Option<Stamp>, exitAt: Option<Stamp>,
    usdPerSol: real, heldOut: bool, gross: real, costs: real, stressedCosts: real)

  datatype Blocker =
    | Contamination | VersionMismatch | NaiveTimestamp | NaiveNow | FutureEvidence | Incomplete
    | InvalidExitReason | InvalidRegime | EvidenceMissing | TimingInvalid | ReferenceMissing
    | TooFewSamples | TooFewDays | TooFewRegimes | NetNotPositive | ProfitFactorLow | DrawdownHigh
    | HeldOutNotPositive | WalkForwardCollapse | StressCatastrophic

  function NoteTime(found: seq<Blocker>, row: Row, now: Stamp): seq<Blocker> {
    if !row.completedAt.aware then found + [NaiveTimestamp]
    else if !now.aware then found + [NaiveNow]
    else Note(found, row.completedAt.utc > now.utc, FutureEvidence)
  }

  predicate TimingValid(row: Row) {
    && row.entryAt.Some? && row.quotedAt.Some? && row.exitAt.Some?
    && row.entryAt.value.aware && row.quotedAt.value.aware && row.exitAt.value.aware
    && row.entryAt.value.utc <= row.quotedAt.value.utc < row.exitAt.value.utc
    && row.completedAt == row.exitAt.value
  }

  function NoteOrigin(version: string, now: Stamp, row: Row): seq<Blocker> {
    var found := Note([], row.evidenceMode != "shadow" || row.contaminated, Contamination);
    NoteTime(Note(found, row.strategyVersion != version, VersionMismatch), row, now)
  }

  function NoteOutcome(found: seq<Blocker>, row: Row): seq<Blocker> {
    var found := Note(found, row.landingStatus != "evaluated", Incomplete);
    var found := Note(found, row.exitReason !in VALID_EXIT_REASONS, InvalidExitReason);
    Note(found, row.regime !in VALID_REGIMES, InvalidRegime)
  }

  function NoteEvidence(found: seq<Blocker>, row: Row): seq<Blocker> {
    var found := Note(found, row.evidenceIds == [] || row.quoteId == "", EvidenceMissing);
    var found := Note(found, !TimingValid(row), TimingInvalid);
    Note(found, row.usdPerSol <= 0.0, ReferenceMissing)
  }

  function RowBlockers(version: string, now: Stamp, row: Row): seq<Blocker> {
    NoteEvidence(NoteOutcome(NoteOrigin(version, now, row), row), row)
  }

  // ---------- metrics ----------

  datatype Metrics = Metrics(net: real, profitFactor: real, drawdown: real)

  function Pnl(row: Row, stress: bool): real {
    row.gross - if stress then row.stressedCosts else row.costs
  }

  function Usd(row: Row, stress: bool): real {
    Pnl(row, stress) * row.usdPerSol
  }

  /** Sums over the first `n` rows: of profits, of gains, of losses, of profits in dollars. */
  function Net(rows: seq<Row>, stress: bool, n: nat): real
    requires n <= |rows|
  {
    if n == 0 then 0.0 else Net(rows, stress, n - 1) + Pnl(rows[n - 1], stress)
  }

  function Wins(rows: seq<Row>, stress: bool, n: nat): (w: real)
    requires n <= |rows|
    ensures w >= 0.0
  {
    if n == 0 then 0.0
    else Wins(rows, stress, n - 1) + if Pnl(rows[n - 1], stress) > 0.0 then Pnl(rows[n - 1], stress) else 0.0
  }

  function Losses(rows: seq<Row>, stress: bool, n: nat): (l: real)
    requires n <= |rows|
    ensures l >= 0.0
  {
    if n == 0 then 0.0
    else Losses(rows, stress, n - 1) + if Pnl(rows[n - 1], stress) < 0.0 then -Pnl(rows[n - 1], stress) else 0.0
  }

  function Running(rows: seq<Row>, stress: bool, n: nat): real
    requires n <= |rows|
  {
    if n == 0 then 0.0 else Running(rows, stress, n - 1) + Usd(rows[n - 1], stress)
  }

  function ProfitFactor(wins: real, losses: real): real {
    if losses != 0.0 then wins / losses else if wins > 0.0 then 99.0 else 0.0
  }

  function Percent(usd: real): (p: real)
    ensures p == usd
  {
    usd / MODELED_EQUITY_USD * 100.0
  }

  function Fall(rows: seq<Row>, stress: bool, i: nat, j: nat): real
    requires i <= j <= |rows|
  {
    Percent(Running(rows, stress, i) - Running(rows, stress, j))
  }

  /** The largest fall, in percent of the modelled equity, from any point of the running
      total, the start included, to any later point of it. */
  ghost predicate IsMaxDrawdown(rows: seq<Row>, stress: bool, d: real) {
    && (forall i, j :: 0 <= i <= j <= |rows| ==> Fall(rows, stress, i, j) <= d)
    && (exists i, j :: 0 <= i <= j <= |rows| && d == Fall(rows, stress, i, j))
  }

  ghost predicate IsMetrics(rows: seq<Row>, stress: bool, m: Metrics) {
    && m.net == Net(rows, stress, |rows|)
    && m.profitFactor == ProfitFactor(Wins(rows, stress, |rows|), Losses(rows, stress, |rows|))
    && IsMaxDrawdown(rows, stress, m.drawdown)
  }

  method ComputeTotals(rows: seq<Row>, stress: bool) returns (net: real, wins: real, losses: real)
    ensures net == Net(rows, stress, |rows|)
    ensures wins == Wins(rows, stress, |rows|) && losses == Losses(rows, stress, |rows|)
  {
    net, wins, losses := 0.0, 0.0, 0.0;
    for k := 0 to |rows|
      invariant net == Net(rows, stress, k) && wins == Wins(rows, stress, k) && losses == Losses(rows, stress, k)
    {
      var value := Pnl(rows[k], stress);
      net := net + value;
      if value > 0.0 {
        wins := wins + value;
      } else if value < 0.0 {
        losses := losses - value;
      }
    }
  }

  method ComputeDrawdown(rows: seq<Row>, stress: bool) returns (drawdown: real)
    ensures IsMaxDrawdown(rows, stress, drawdown)
  {
    hide Percent, Usd;
    var running, peak := 0.0, 0.0;
    drawdown := 0.0;
    ghost var top, from, to := 0, 0, 0;
    for k := 0 to |rows|
      invariant running == Running(rows, stress, k)
      invariant 0 <= top <= k && peak == Running(rows, stress, top)
      invariant forall i :: 0 <= i <= k ==> Running(rows, stress, i) <= peak
      invariant 0 <= from <= to <= k && drawdown == Fall(rows, stress, from, to)
      invariant forall i, j :: 0 <= i <= j <= k ==> Fall(rows, stress, i, j) <= drawdown
    {
      running := running + Usd(rows[k], stress);
      if peak < running {
        peak, top := running, k + 1;
      }
      var drawdownUsd := peak - running;
      if drawdown < Percent(drawdownUsd) {
        drawdown, from, to := Percent(drawdownUsd), top, k + 1;
      }
    }
  }

  method ComputeMetrics(rows: seq<Row>, stress: bool) returns (m: Metrics)
    ensures IsMetrics(rows, stress, m)
  {
    var net, wins, losses := ComputeTotals(rows, stress);
    var drawdown := ComputeDrawdown(rows, stress);
    m := Metrics(net, ProfitFactor(wins, losses), drawdown);
  }

  lemma MetricsUnique(rows: seq<Row>, stress: bool, a: Metrics, b: Metrics)
    requires IsMetrics(rows, stress, a) && IsMetrics(rows, stress, b)
    ensures a == b
  {
  }

  /** Gains less losses is the net, and the drawdown is never negative. */
  lemma {:induction false} WinsLessLosses(rows: seq<Row>, stress: bool, n: nat)
    requires n <= |rows|
    ensures Net(rows, stress, n) == Wins(rows, stress, n) - Losses(rows, stress, n)
  {
    if n > 0 {
      WinsLessLosses(rows, stress, n - 1);
    }
  }

  // ---------- the report ----------

  datatype Report = Report(ready: bool, blockers: seq<Blocker>, sampleCount: nat, fixtureCount: nat,
                           calendarDays: nat, regimes: set<string>, standard: Metrics, heldOut: Metrics,
                           training: Metrics, stressed: Metrics)

  function Genuine(rows: seq<Row>): seq<Row> {
    if rows == [] then [] else (if rows[0].fixtureOnly then [] else [rows[0]]) + Genuine(rows[1..])
  }

  predicate Accepts(version: string, now: Stamp, row: Row) {
    !row.fixtureOnly && RowBlockers(version, now, row) == []
  }

  function Valid(version: string, now: Stamp, rows: seq<Row>): (valid: seq<Row>)
    ensures forall row :: row in valid ==> row in rows && Accepts(version, now, row)
  {
    if rows == [] then []
    else (if Accepts(version, now, rows[0]) then [rows[0]] else []) + Valid(version, now, rows[1..])
  }

  /** The rows held out of training, or those not held out. */
  function Side(rows: seq<Row>, heldOut: bool): seq<Row> {
    if rows == [] then []
    else Side(rows[..|rows| - 1], heldOut) + if rows[|rows| - 1].heldOut == heldOut then [rows[|rows| - 1]] else []
  }

  function HeldOut(rows: seq<Row>): seq<Row> {
    Side(rows, true)
  }

  function Training(rows: seq<Row>): seq<Row> {
    Side(rows, false)
  }

  function AllRowBlockers(version: string, now: Stamp, rows: seq<Row>): seq<Blocker> {
    if rows == [] then []
    else (if rows[0].fixtureOnly then [] else RowBlockers(version, now, rows[0]))
         + AllRowBlockers(version, now, rows[1..])
  }

  function FixtureCount(rows: seq<Row>): nat {
    if rows == [] then 0 else (if rows[0].fixtureOnly then 1 else 0) + FixtureCount(rows[1..])
  }

  function NoteTotals(samples: nat, days: nat, regimes: nat, standard: Metrics): seq<Blocker> {
    var found := Note([], samples < MIN_SAMPLES, TooFewSamples);
    var found := Note(found, days < MIN_CALENDAR_DAYS, TooFewDays);
    var found := Note(found, regimes < 2, TooFewRegimes);
    var found := Note(found, standard.net <= 0.0, NetNotPositive);
    var found := Note(found, standard.profitFactor < MIN_PROFIT_FACTOR, ProfitFactorLow);
    Note(found, standard.drawdown > MAX_DRAWDOWN_PERCENT, DrawdownHigh)
  }

  /** The average of the held-out rows is compared with that of the training rows, if there are any. */
  function NoteHeldOut(found: seq<Blocker>, heldOut: real, held: nat, training: real, train: nat): seq<Blocker> {
    if held == 0 || heldOut <= 0.0 then found + [HeldOutNotPositive]
    else if train == 0 then found
    else
      var trainAverage, heldOutAverage := training / train as real, heldOut / held as real;
      Note(found, trainAverage > 0.0 && heldOutAverage < trainAverage * 0.25, WalkForwardCollapse)
  }

  function Gates(valid: seq<Row>, days: nat, regimes: nat, standard: Metrics, heldOut: Metrics,
                 training: Metrics, stressed: Metrics): seq<Blocker>
  {
    var held, train := |HeldOut(valid)|, |Training(valid)|;
    var found := NoteTotals(|valid|, days, regimes, standard);
    var found := NoteHeldOut(found, heldOut.net, held, training.net, train);
    Note(found, stressed.net <= STRESS_CATASTROPHE, StressCatastrophic)
  }

  /** `dict.fromkeys`: the first occurrence of each. */
  function Dedupe(bs: seq<Blocker>): (r: seq<Blocker>)
    ensures forall b :: b in r <==> b in bs
    ensures forall i, j :: 0 <= i < j < |r| ==> r[i] != r[j]
  {
    if bs == [] then []
    else
      var init, last := bs[..|bs| - 1], bs[|bs| - 1];
      assert bs == init + [last];
      if last in init then Dedupe(init) else Dedupe(init) + [last]
  }

  ghost predicate IsReport(version: string, rows: seq<Row>, now: Stamp, r: Report) {
    var valid := Valid(version, now, rows);
    && r.sampleCount == |valid|
    && r.fixtureCount == FixtureCount(rows)
    && r.calendarDays == |set row | row in valid :: row.localDay|
    && r.regimes == (set row | row in valid && row.regime != "" :: row.regime)
    && IsMetrics(valid, false, r.standard) && IsMetrics(valid, true, r.stressed)
    && IsMetrics(HeldOut(valid), false, r.heldOut) && IsMetrics(Training(valid), false, r.training)
    && r.blockers == Dedupe(AllRowBlockers(version, now, rows)
                            + Gates(valid, r.calendarDays, |r.regimes|, r.standard, r.heldOut, r.training, r.stressed))
    && (r.ready <==> r.blockers == [])
  }

  method Screen(version: string, rows: seq<Row>, now: Stamp)
    returns (blockers: seq<Blocker>, valid: seq<Row>, fixtures: nat)
    ensures blockers == AllRowBlockers(version, now, rows) && valid == Valid(version, now, rows)
    ensures fixtures == FixtureCount(rows)
  {
    hide RowBlockers;
    blockers, valid, fixtures := [], [], 0;
    for k := 0 to |rows|
      invariant blockers + AllRowBlockers(version, now, rows[k..]) == AllRowBlockers(version, now, rows)
      invariant valid + Valid(version, now, rows[k..]) == Valid(version, now, rows)
      invariant fixtures + FixtureCount(rows[k..]) == FixtureCount(rows)
    {
      assert rows[k..][0] == rows[k] && rows[k..][1..] == rows[k + 1..];
      var row := rows[k];
      if row.fixtureOnly {
        fixtures := fixtures + 1;
      } else {
        var found := RowBlockers(version, now, row);
        blockers := blockers + found;
        if found == [] {
          valid := valid + [row];
        }
      }
    }
    assert rows[|rows|..] == [];
  }

  method Evaluate(version: string, rows: seq<Row>, now: Stamp) returns (r: Report)
    ensures IsReport(version, rows, now, r)
  {
    var blockers, valid, fixtures := Screen(version, rows, now);
    var standard := ComputeMetrics(valid, false);
    var stressed := ComputeMetrics(valid, true);
    var heldOut := ComputeMetrics(HeldOut(valid), false);
    var training := ComputeMetrics(Training(valid), false);
    hide IsMetrics, Gates, Valid, AllRowBlockers, HeldOut, Training;
    var days := |set row | row in valid :: row.localDay|;
    var regimes := set row | row in valid && row.regime != "" :: row.regime;
    var deduped := Dedupe(blockers + Gates(valid, days, |regimes|, standard, heldOut, training, stressed));
    r := Report(deduped == [], deduped, |valid|, fixtures, days, regimes, standard, heldOut, training, stressed);
  }

  // ---------- properties of the report ----------

  lemma {:induction false} NetPrefix(rows: seq<Row>, more: seq<Row>, n: nat)
    requires n <= |rows|
    ensures Net(rows + more, false, n) == Net(rows, false, n)
  {
    if n > 0 {
      NetPrefix(rows, more, n - 1);
    }
  }

  lemma NetSnoc(rows: seq<Row>, row: Row)
    ensures Net(rows + [row], false, |rows + [row]|) == Net(rows, false, |rows|) + Pnl(row, false)
  {
    NetPrefix(rows, [row], |rows|);
  }

  lemma {:induction false} NetOfSplit(rows: seq<Row>)
    ensures Net(rows, false, |rows|) ==
      Net(HeldOut(rows), false, |HeldOut(rows)|) + Net(Training(rows), false, |Training(rows)|)
    decreases |rows|
  {
    hide Pnl;
    if rows != [] {
      var init, last := rows[..|rows| - 1], rows[|rows| - 1];
      NetOfSplit(init);
      assert rows == init + [last];
      NetSnoc(init, last);
      assert HeldOut(rows) == if last.heldOut then HeldOut(init) + [last] else HeldOut(init);
      assert Training(rows) == if last.heldOut then Training(init) else Training(init) + [last];
      if last.heldOut {
        NetSnoc(HeldOut(init), last);
      } else {
        NetSnoc(Training(init), last);
      }
    }
  }

  /** Conservation: the held-out and the training results add up to the total. */
  lemma NetIsHeldOutPlusTraining(version: string, rows: seq<Row>, now: Stamp, r: Report)
    requires IsReport(version, rows, now, r)
    ensures r.standard.net == r.heldOut.net + r.training.net
  {
    NetOfSplit(Valid(version, now, rows));
  }

  lemma {:induction false} FixturesAreSkipped(version: string, now: Stamp, rows: seq<Row>)
    ensures Valid(version, now, rows) == Valid(version, now, Genuine(rows))
    ensures AllRowBlockers(version, now, rows) == AllRowBlockers(version, now, Genuine(rows))
    ensures FixtureCount(Genuine(rows)) == 0
  {
    if rows != [] {
      FixturesAreSkipped(version, now, rows[1..]);
      if !rows[0].fixtureOnly {
        assert Genuine(rows)[1..] == Genuine(rows[1..]);
      } else {
        assert Genuine(rows) == Genuine(rows[1..]);
      }
    }
  }

  /** Fixture rows change nothing but their own count: a report is the report of the
      genuine rows alone, except for `fixtureCount`, and it is the only one. */
  lemma FixturesChangeNothing(version: string, rows: seq<Row>, now: Stamp, r: Report, genuine: Report)
    requires IsReport(version, rows, now, r)
    ensures IsReport(version, Genuine(rows), now, genuine) <==> genuine == r.(fixtureCount := 0)
  {
    FixturesAreSkipped(version, now, rows);
    var valid := Valid(version, now, rows);
    if IsReport(version, Genuine(rows), now, genuine) {
      MetricsUnique(valid, false, r.standard, genuine.standard);
      MetricsUnique(valid, true, r.stressed, genuine.stressed);
      MetricsUnique(HeldOut(valid), false, r.heldOut, genuine.heldOut);
      MetricsUnique(Training(valid), false, r.training, genuine.training);
    }
  }

  lemma {:induction false} UnblockedIsValid(version: string, now: Stamp, rows: seq<Row>)
    ensures AllRowBlockers(version, now, rows) == [] <==>
      forall row :: row in Genuine(rows) ==> RowBlockers(version, now, row) == []
    ensures AllRowBlockers(version, now, rows) == [] ==> Valid(version, now, rows) == Genuine(rows)
  {
    hide RowBlockers;
    if rows != [] {
      UnblockedIsValid(version, now, rows[1..]);
      var first := if rows[0].fixtureOnly then [] else RowBlockers(version, now, rows[0]);
      assert AllRowBlockers(version, now, rows) == [] <==>
             first == [] && AllRowBlockers(version, now, rows[1..]) == [];
      assert forall row :: row in Genuine(rows) <==>
             row in Genuine(rows[1..]) || (row == rows[0] && !rows[0].fixtureOnly);
    }
  }

  lemma {:induction false} BlockerIsListed(version: string, now: Stamp, rows: seq<Row>, row: Row, b: Blocker)
    requires row in rows && !row.fixtureOnly && b in RowBlockers(version, now, row)
    ensures b in AllRowBlockers(version, now, rows)
  {
    hide RowBlockers;
    if row != rows[0] {
      BlockerIsListed(version, now, rows[1..], row, b);
    }
  }

  /** Every blocker of every genuine row is in the report, which is then not ready. */
  lemma BlockersAreReported(version: string, rows: seq<Row>, now: Stamp, r: Report, row: Row, b: Blocker)
    requires IsReport(version, rows, now, r)
    requires row in rows && !row.fixtureOnly && b in RowBlockers(version, now, row)
    ensures b in r.blockers && !r.ready
  {
    hide RowBlockers, IsMetrics, Gates;
    BlockerIsListed(version, now, rows, row, b);
  }

  /** The held-out rows earn, on average, less than a quarter of what the training rows earn. */
  predicate Collapses(heldOut: real, held: nat, training: real, train: nat) {
    held > 0 && train > 0 && training / train as real > 0.0 && heldOut / held as real < training / train as real * 0.25
  }

  /** What the gates ask of the judged rows. */
  predicate PassesGates(valid: seq<Row>, r: Report) {
    var held, train := |HeldOut(valid)|, |Training(valid)|;
    && |valid| >= MIN_SAMPLES && r.calendarDays >= MIN_CALENDAR_DAYS && |r.regimes| >= 2
    && r.standard.net > 0.0 && r.standard.profitFactor >= MIN_PROFIT_FACTOR
    && r.standard.drawdown <= MAX_DRAWDOWN_PERCENT
    && held > 0 && r.heldOut.net > 0.0 && !Collapses(r.heldOut.net, held, r.training.net, train)
    && r.stressed.net > STRESS_CATASTROPHE
  }

  lemma GatesAreOpen(valid: seq<Row>, r: Report)
    ensures Gates(valid, r.calendarDays, |r.regimes|, r.standard, r.heldOut, r.training, r.stressed) == [] <==>
      PassesGates(valid, r)
  {
    hide HeldOut, Training;
  }

  /** A report is ready exactly when no genuine row is blocked and all genuine rows together
      pass every gate: enough samples, days and regimes, a positive net result, its profit
      factor and drawdown, a held-out result that is positive and does not collapse, and
      no catastrophe under stressed costs. */
  lemma ReadyIffClean(version: string, rows: seq<Row>, now: Stamp, r: Report)
    requires IsReport(version, rows, now, r)
    ensures r.ready <==>
      && (forall row :: row in Genuine(rows) ==> RowBlockers(version, now, row) == [])
      && PassesGates(Genuine(rows), r)
    ensures r.ready ==> r.sampleCount == |Genuine(rows)|
  {
    var valid := Valid(version, now, rows);
    var all := AllRowBlockers(version, now, rows);
    var gates := Gates(valid, r.calendarDays, |r.regimes|, r.standard, r.heldOut, r.training, r.stressed);
    hide RowBlockers, IsMetrics, Gates, PassesGates, Valid, AllRowBlockers;
    UnblockedIsValid(version, now, rows);
    GatesAreOpen(valid, r);
    NothingDeduped(all + gates);
    assert all + gates == [] <==> all == [] && gates == [];
  }

  lemma NothingDeduped(bs: seq<Blocker>)
    ensures Dedupe(bs) == [] <==> bs == []
  {
    if bs != [] {
      assert bs[0] in bs;
    }
  }
}
