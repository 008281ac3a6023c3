/** The report of `ShadowEvaluation` written out on the rows: which conditions block a row or the
    report, and what its figures are sums and extremes of. */
module ShadowEvaluationLaws {
  import opened Common
  import opened Options
  import opened ShadowEvaluation

  function Place(b: Blocker): nat {
    match b
    case Contamination => 0
    case VersionMismatch => 1
    case NaiveTimestamp => 2
    case NaiveNow => 3
    case FutureEvidence => 4
    case Incomplete => 5
    case InvalidExitReason => 6
    case InvalidRegime => 7
    case EvidenceMissing => 8
    case TimingInvalid => 9
    case ReferenceMissing => 10
    case TooFewSamples => 11
    case TooFewDays => 12
    case TooFewRegimes => 13
    case NetNotPositive => 14
    case ProfitFactorLow => 15
    case DrawdownHigh => 16
    case HeldOutNotPositive => 17
    case WalkForwardCollapse => 18
    case StressCatastrophic => 19
  }

  // ---------- rows ----------

  /** The four times of a row are known, have a time zone, and are in order. */
  predicate InTime(row: Row) {
    && row.entryAt.Some? && row.quotedAt.Some? && row.exitAt.Some?
    && var entry, quoted, exit := row.entryAt.value, row.quotedAt.value, row.exitAt.value;
    && entry.aware && quoted.aware && exit.aware
    && !(entry.utc > quoted.utc) && !(quoted.utc >= exit.utc)
    && row.completedAt.aware && row.completedAt.utc == exit.utc
  }

  predicate IsExitReason(reason: string) {
    reason in ["take profit", "trailing stop", "break-even stop", "stalled trade", "stop loss", "max hold time",
               "max position ticks"]
  }

  predicate IsRegime(regime: string) {
    regime == "quiet" || regime == "normal" || regime == "surge"
  }

  predicate SameLists(a: seq<Blocker>, b: seq<Blocker>, from: nat, to: nat) {
    forall x: Blocker :: !(from <= Place(x) < to) ==> (Lists(a, x) <==> Lists(b, x))
  }

  lemma WordsAreValid(row: Row)
    ensures row.exitReason in VALID_EXIT_REASONS <==> IsExitReason(row.exitReason)
    ensures row.regime in VALID_REGIMES <==> IsRegime(row.regime)
    ensures TimingValid(row) <==> InTime(row)
    ensures row.evidenceIds == [] || row.quoteId == "" <==> |row.evidenceIds| == 0 || |row.quoteId| == 0
  {
  }

  /** The first five conditions: what is compared, and when. */
  predicate OriginBlocks(version: string, now: Stamp, row: Row, found: seq<Blocker>) {
    && (Lists(found, Contamination) <==> row.evidenceMode != "shadow" || row.contaminated)
    && (Lists(found, VersionMismatch) <==> row.strategyVersion != version)
    && (Lists(found, NaiveTimestamp) <==> !row.completedAt.aware)
    && (Lists(found, NaiveNow) <==> row.completedAt.aware && !now.aware)
    && (Lists(found, FutureEvidence) <==> row.completedAt.aware && now.aware && row.completedAt.utc > now.utc)
  }

  lemma TimeIsNoted(found: seq<Blocker>, row: Row, now: Stamp)
    ensures NoteTime(found, row, now) ==
      Note(Note(Note(found, !row.completedAt.aware, NaiveTimestamp), row.completedAt.aware && !now.aware, NaiveNow),
           row.completedAt.aware && now.aware && row.completedAt.utc > now.utc, FutureEvidence)
  {
  }

  lemma OriginIsNoted(version: string, now: Stamp, row: Row) returns (found: seq<Blocker>)
    ensures found == NoteOrigin(version, now, row) && Ranked(found, Place) && Under(found, Place, 5)
    ensures OriginBlocks(version, now, row, found) && SameLists(found, [], 0, 5)
    ensures found == [] <==>
      row.evidenceMode == "shadow" && !row.contaminated && row.strategyVersion == version
      && row.completedAt.aware && now.aware && row.completedAt.utc <= now.utc
  {
    hide Note, NoteTime, Ranked, Under, Lists;
    found := NothingNoted(Place);
    found := NoteInOrder(found, row.evidenceMode != "shadow" || row.contaminated, Contamination, Place, 0);
    found := NoteInOrder(found, row.strategyVersion != version, VersionMismatch, Place, 1);
    TimeIsNoted(found, row, now);
    found := NoteInOrder(found, !row.completedAt.aware, NaiveTimestamp, Place, 2);
    found := NoteInOrder(found, row.completedAt.aware && !now.aware, NaiveNow, Place, 3);
    found := NoteInOrder(found, row.completedAt.aware && now.aware && row.completedAt.utc > now.utc, FutureEvidence,
                         Place, 4);
  }

  /** The next three: how the comparison ended. */
  predicate OutcomeBlocks(row: Row, found: seq<Blocker>) {
    && (Lists(found, Incomplete) <==> row.landingStatus != "evaluated")
    && (Lists(found, InvalidExitReason) <==> !IsExitReason(row.exitReason))
    && (Lists(found, InvalidRegime) <==> !IsRegime(row.regime))
  }

  lemma OutcomeIsNoted(xs: seq<Blocker>, row: Row) returns (found: seq<Blocker>)
    requires Ranked(xs, Place) && Under(xs, Place, 5) && SameLists(xs, [], 0, 5)
    ensures found == NoteOutcome(xs, row) && Ranked(found, Place) && Under(found, Place, 8)
    ensures OutcomeBlocks(row, found) && SameLists(found, xs, 5, 8)
    ensures found == [] <==>
      xs == [] && row.landingStatus == "evaluated" && IsExitReason(row.exitReason) && IsRegime(row.regime)
  {
    WordsAreValid(row);
    hide Note, Ranked, Under, Lists, IsExitReason, IsRegime, VALID_EXIT_REASONS, VALID_REGIMES;
    var none := NothingNoted(Place);
    found := NoteInOrder(xs, row.landingStatus != "evaluated", Incomplete, Place, 5);
    found := NoteInOrder(found, row.exitReason !in VALID_EXIT_REASONS, InvalidExitReason, Place, 6);
    found := NoteInOrder(found, row.regime !in VALID_REGIMES, InvalidRegime, Place, 7);
  }

  /** The last three: what the comparison rests on. */
  predicate EvidenceBlocks(row: Row, found: seq<Blocker>) {
    && (Lists(found, EvidenceMissing) <==> |row.evidenceIds| == 0 || |row.quoteId| == 0)
    && (Lists(found, TimingInvalid) <==> !InTime(row))
    && (Lists(found, ReferenceMissing) <==> !(row.usdPerSol > 0.0))
  }

  lemma EvidenceIsNoted(xs: seq<Blocker>, row: Row) returns (found: seq<Blocker>)
    requires Ranked(xs, Place) && Under(xs, Place, 8) && SameLists(xs, [], 0, 8)
    ensures found == NoteEvidence(xs, row) && Ranked(found, Place)
    ensures EvidenceBlocks(row, found) && SameLists(found, xs, 8, 11)
    ensures found == [] <==>
      xs == [] && |row.evidenceIds| > 0 && |row.quoteId| > 0 && InTime(row) && row.usdPerSol > 0.0
  {
    WordsAreValid(row);
    hide Note, Ranked, Under, Lists, TimingValid, InTime;
    var none := NothingNoted(Place);
    found := NoteInOrder(xs, row.evidenceIds == [] || row.quoteId == "", EvidenceMissing, Place, 8);
    found := NoteInOrder(found, !TimingValid(row), TimingInvalid, Place, 9);
    found := NoteInOrder(found, row.usdPerSol <= 0.0, ReferenceMissing, Place, 10);
  }

  /** Each blocker is found if and only if its condition holds of the row, once, in a fixed order. */
  predicate Blocks(version: string, now: Stamp, row: Row, found: seq<Blocker>) {
    && OriginBlocks(version, now, row, found) && OutcomeBlocks(row, found) && EvidenceBlocks(row, found)
    && Ranked(found, Place)
  }

  /** No condition blocks the row. */
  predicate IsClean(version: string, now: Stamp, row: Row) {
    && row.evidenceMode == "shadow" && !row.contaminated && row.strategyVersion == version
    && row.completedAt.aware && now.aware && row.completedAt.utc <= now.utc
    && row.landingStatus == "evaluated" && IsExitReason(row.exitReason) && IsRegime(row.regime)
    && |row.evidenceIds| > 0 && |row.quoteId| > 0 && InTime(row) && row.usdPerSol > 0.0
  }

  /** A row is judged condition by condition, and is clean if and only if no condition holds. */
  lemma RowIsJudged(version: string, now: Stamp, row: Row)
    ensures Blocks(version, now, row, RowBlockers(version, now, row))
    ensures RowBlockers(version, now, row) == [] <==> IsClean(version, now, row)
  {
    hide Note, NoteOrigin, NoteOutcome, NoteEvidence, Ranked, Under, Lists, IsExitReason, IsRegime, InTime;
    var origin := OriginIsNoted(version, now, row);
    var outcome := OutcomeIsNoted(origin, row);
    var found := EvidenceIsNoted(outcome, row);
  }

  // ---------- figures ----------

  /** What a row earns, under its own costs or under the stressed ones. */
  function Value(row: Row, stress: bool): real {
    if stress then row.gross - row.stressedCosts else row.gross - row.costs
  }

  function Total(rows: seq<Row>, stress: bool): real {
    if rows == [] then 0.0 else Total(rows[..|rows| - 1], stress) + Value(rows[|rows| - 1], stress)
  }

  function Gained(rows: seq<Row>, stress: bool): real {
    if rows == [] then 0.0
    else
      var v := Value(rows[|rows| - 1], stress);
      Gained(rows[..|rows| - 1], stress) + if v >= 0.0 then v else 0.0
  }

  function Lost(rows: seq<Row>, stress: bool): real {
    if rows == [] then 0.0
    else
      var v := Value(rows[|rows| - 1], stress);
      Lost(rows[..|rows| - 1], stress) + if v >= 0.0 then 0.0 else -v
  }

  function DollarValue(row: Row, stress: bool): real {
    Value(row, stress) * row.usdPerSol
  }

  function Dollars(rows: seq<Row>, stress: bool): real {
    if rows == [] then 0.0 else Dollars(rows[..|rows| - 1], stress) + DollarValue(rows[|rows| - 1], stress)
  }

  lemma {:induction false} SumsOfAPrefix(rows: seq<Row>, stress: bool, n: nat)
    requires n <= |rows|
    ensures Net(rows, stress, n) == Total(rows[..n], stress)
    ensures Wins(rows, stress, n) == Gained(rows[..n], stress) && Losses(rows, stress, n) == Lost(rows[..n], stress)
    ensures Running(rows, stress, n) == Dollars(rows[..n], stress)
    decreases n
  {
    if n > 0 {
      SumsOfAPrefix(rows, stress, n - 1);
      assert rows[..n][..n - 1] == rows[..n - 1] && rows[..n][n - 1] == rows[n - 1];
      ValueIsPnl(rows[n - 1], stress);
      hide Pnl, Value, Usd, DollarValue;
    }
  }

  lemma ValueIsPnl(row: Row, stress: bool)
    ensures Pnl(row, stress) == Value(row, stress) && Usd(row, stress) == DollarValue(row, stress)
  {
  }

  /** The fall of the result, in dollars, from after `i` rows to after `j` rows. */
  function Drop(rows: seq<Row>, stress: bool, i: nat, j: nat): real
    requires i <= j <= |rows|
  {
    Dollars(rows[..i], stress) - Dollars(rows[..j], stress)
  }

  /** The three figures: the sum of the values; gains over losses, 99 without a loss, 0 without either;
      and the largest fall of the result, in dollars, which is in percent of 100 dollars. */
  ghost predicate Measures(rows: seq<Row>, stress: bool, m: Metrics) {
    && m.net == Total(rows, stress)
    && (if Lost(rows, stress) > 0.0 then m.profitFactor * Lost(rows, stress) == Gained(rows, stress)
        else if Gained(rows, stress) > 0.0 then m.profitFactor == 99.0
        else m.profitFactor == 0.0)
    && (forall i: nat, j: nat :: i <= j <= |rows| ==> Drop(rows, stress, i, j) <= m.drawdown)
    && (exists i: nat, j: nat :: i <= j <= |rows| && Drop(rows, stress, i, j) == m.drawdown)
  }

  lemma FallIsDrop(rows: seq<Row>, stress: bool)
    ensures forall i: nat, j: nat :: i <= j <= |rows| ==> Fall(rows, stress, i, j) == Drop(rows, stress, i, j)
  {
    forall i: nat, j: nat | i <= j <= |rows|
      ensures Fall(rows, stress, i, j) == Drop(rows, stress, i, j)
    {
      SumsOfAPrefix(rows, stress, i);
      SumsOfAPrefix(rows, stress, j);
    }
  }

  lemma FactorIsQuotient(wins: real, losses: real, f: real)
    requires wins >= 0.0 && losses >= 0.0
    ensures losses > 0.0 ==> (f == ProfitFactor(wins, losses) <==> f * losses == wins)
    ensures losses == 0.0 ==> (f == ProfitFactor(wins, losses) <==> f == if wins > 0.0 then 99.0 else 0.0)
  {
    if losses > 0.0 {
      QuotientIsUnique(wins, losses, f);
    }
  }

  lemma QuotientIsUnique(x: real, d: real, q: real)
    requires d > 0.0
    ensures q == x / d <==> q * d == x
  {
    assert x / d * d == x;
    if q * d == x {
      assert q * d / d == q;
    }
  }

  lemma SumsOfAll(rows: seq<Row>, stress: bool)
    ensures Net(rows, stress, |rows|) == Total(rows, stress)
    ensures Wins(rows, stress, |rows|) == Gained(rows, stress) && Losses(rows, stress, |rows|) == Lost(rows, stress)
  {
    SumsOfAPrefix(rows, stress, |rows|);
    assert rows[..|rows|] == rows;
  }

  lemma LargestDrop(rows: seq<Row>, stress: bool, d: real)
    ensures IsMaxDrawdown(rows, stress, d) <==>
      && (forall i: nat, j: nat :: i <= j <= |rows| ==> Drop(rows, stress, i, j) <= d)
      && (exists i: nat, j: nat :: i <= j <= |rows| && Drop(rows, stress, i, j) == d)
  {
    FallIsDrop(rows, stress);
    hide Fall, Drop;
    if IsMaxDrawdown(rows, stress, d) {
      var i, j :| 0 <= i <= j <= |rows| && d == Fall(rows, stress, i, j);
      assert Drop(rows, stress, i, j) == d;
    }
    if i: nat, j: nat :| i <= j <= |rows| && Drop(rows, stress, i, j) == d {
      assert Fall(rows, stress, i, j) == d;
    }
  }

  /** The figures that the single pass computes are exactly those. */
  lemma FiguresAreMeasured(rows: seq<Row>, stress: bool, m: Metrics)
    ensures IsMetrics(rows, stress, m) <==> Measures(rows, stress, m)
  {
    hide IsMaxDrawdown, Drop, ProfitFactor, Wins, Losses, Net, Total, Gained, Lost;
    SumsOfAll(rows, stress);
    LargestDrop(rows, stress, m.drawdown);
    FactorIsQuotient(Wins(rows, stress, |rows|), Losses(rows, stress, |rows|), m.profitFactor);
  }

  // ---------- the report ----------

  /** The rows that count: neither fixtures nor blocked. */
  function Clean(version: string, now: Stamp, rows: seq<Row>): seq<Row> {
    if rows == [] then []
    else
      var rest := Clean(version, now, rows[1..]);
      if rows[0].fixtureOnly || !IsClean(version, now, rows[0]) then rest else [rows[0]] + rest
  }

  /** The rows of one side, held out of training or not. */
  function OfSide(rows: seq<Row>, heldOut: bool): seq<Row> {
    if rows == [] then []
    else if rows[0].heldOut == heldOut then [rows[0]] + OfSide(rows[1..], heldOut)
    else OfSide(rows[1..], heldOut)
  }

  lemma {:induction false} ValidIsClean(version: string, now: Stamp, rows: seq<Row>)
    ensures Valid(version, now, rows) == Clean(version, now, rows)
  {
    hide RowBlockers, IsClean;
    if rows != [] {
      RowIsJudged(version, now, rows[0]);
      ValidIsClean(version, now, rows[1..]);
    }
  }

  lemma {:induction false} OfSideSnoc(rows: seq<Row>, row: Row, heldOut: bool)
    ensures OfSide(rows + [row], heldOut) == OfSide(rows, heldOut) + if row.heldOut == heldOut then [row] else []
  {
    if rows == [] {
      assert [row][1..] == [];
    } else {
      assert (rows + [row])[1..] == rows[1..] + [row];
      OfSideSnoc(rows[1..], row, heldOut);
    }
  }

  lemma {:induction false} SideIsOfSide(rows: seq<Row>, heldOut: bool)
    ensures Side(rows, heldOut) == OfSide(rows, heldOut)
    decreases |rows|
  {
    if rows != [] {
      SideIsOfSide(rows[..|rows| - 1], heldOut);
      OfSideSnoc(rows[..|rows| - 1], rows[|rows| - 1], heldOut);
      assert rows == rows[..|rows| - 1] + [rows[|rows| - 1]];
    }
  }

  /** The places of the fixtures. */
  function FixturePlaces(rows: seq<Row>): set<nat> {
    set i: nat | i < |rows| && rows[i].fixtureOnly
  }

  lemma {:induction false} FixturesAreCounted(rows: seq<Row>)
    ensures FixtureCount(rows) == |FixturePlaces(rows)|
    decreases |rows|
  {
    if rows == [] {
      assert FixturePlaces(rows) == {};
    } else {
      var init, n := rows[..|rows| - 1], |rows| - 1;
      FixturesAreCounted(init);
      assert rows == init + [rows[n]];
      FixturesSnoc(init, rows[n]);
      PlacesSnoc(rows);
      hide FixturePlaces;
    }
  }

  lemma PlacesSnoc(rows: seq<Row>)
    requires rows != []
    ensures var n := |rows| - 1;
      |FixturePlaces(rows)| == |FixturePlaces(rows[..n])| + if rows[n].fixtureOnly then 1 else 0
  {
    var n := |rows| - 1;
    assert FixturePlaces(rows) == FixturePlaces(rows[..n]) + if rows[n].fixtureOnly then {n} else {};
  }

  lemma {:induction false} FixturesSnoc(rows: seq<Row>, row: Row)
    ensures FixtureCount(rows + [row]) == FixtureCount(rows) + if row.fixtureOnly then 1 else 0
  {
    if rows == [] {
      assert rows + [row] == [row] && [row][1..] == [];
    } else {
      assert (rows + [row])[1..] == rows[1..] + [row];
      FixturesSnoc(rows[1..], row);
    }
  }

  /** The report is about the clean rows, its four sets of figures about all of them at their own and
      at stressed costs, about those held out, and about the others. */
  lemma ReportIsMeasured(version: string, rows: seq<Row>, now: Stamp, r: Report)
    requires IsReport(version, rows, now, r)
    ensures var clean := Clean(version, now, rows);
      && r.sampleCount == |clean| && r.fixtureCount == |FixturePlaces(rows)|
      && r.calendarDays == |set row | row in clean :: row.localDay|
      && r.regimes == (set row | row in clean :: row.regime)
      && Measures(clean, false, r.standard) && Measures(clean, true, r.stressed)
      && Measures(OfSide(clean, true), false, r.heldOut) && Measures(OfSide(clean, false), false, r.training)
  {
    var clean := Clean(version, now, rows);
    ValidIsClean(version, now, rows);
    FixturesAreCounted(rows);
    SideIsOfSide(clean, true);
    SideIsOfSide(clean, false);
    FiguresAreMeasured(clean, false, r.standard);
    FiguresAreMeasured(clean, true, r.stressed);
    FiguresAreMeasured(OfSide(clean, true), false, r.heldOut);
    FiguresAreMeasured(OfSide(clean, false), false, r.training);
    CleanHasRegimes(version, now, rows);
    hide IsMetrics, Measures, Gates, Dedupe, AllRowBlockers, IsClean, Clean, Valid, OfSide, Side, FixturePlaces;
  }

  lemma {:induction false} CleanHasRegimes(version: string, now: Stamp, rows: seq<Row>)
    ensures forall row :: row in Clean(version, now, rows) ==> row.regime != ""
  {
    if rows != [] {
      CleanHasRegimes(version, now, rows[1..]);
    }
  }

  // ---------- gates ----------

  /** The held-out average is positive, and less than a quarter of a positive training average. */
  predicate Collapsed(held: nat, train: nat, r: Report) {
    && held > 0 && r.heldOut.net > 0.0 && train > 0
    && r.training.net / train as real > 0.0
    && r.heldOut.net / held as real < r.training.net / train as real * 0.25
  }

  /** What blocks the report as a whole, from its figures: each blocker if and only if its condition
      holds, once, in a fixed order. */
  predicate GatesBlock(held: nat, train: nat, r: Report, found: seq<Blocker>) {
    && (Lists(found, TooFewSamples) <==> held + train < 100)
    && (Lists(found, TooFewDays) <==> r.calendarDays < 7)
    && (Lists(found, TooFewRegimes) <==> |r.regimes| < 2)
    && (Lists(found, NetNotPositive) <==> !(r.standard.net > 0.0))
    && (Lists(found, ProfitFactorLow) <==> r.standard.profitFactor < 1.2)
    && (Lists(found, DrawdownHigh) <==> r.standard.drawdown > 10.0)
    && (Lists(found, HeldOutNotPositive) <==> held == 0 || !(r.heldOut.net > 0.0))
    && (Lists(found, WalkForwardCollapse) <==> Collapsed(held, train, r))
    && (Lists(found, StressCatastrophic) <==> r.stressed.net <= -10.0)
    && Ranked(found, Place)
  }

  /** The gates before the held-out result. */
  lemma EarlyGates(samples: nat, r: Report) returns (found: seq<Blocker>)
    ensures found == NoteTotals(samples, r.calendarDays, |r.regimes|, r.standard)
    ensures Ranked(found, Place) && Under(found, Place, 17) && SameLists(found, [], 11, 17)
    ensures Lists(found, TooFewSamples) <==> samples < 100
    ensures Lists(found, TooFewDays) <==> r.calendarDays < 7
    ensures Lists(found, TooFewRegimes) <==> |r.regimes| < 2
    ensures Lists(found, NetNotPositive) <==> !(r.standard.net > 0.0)
    ensures Lists(found, ProfitFactorLow) <==> r.standard.profitFactor < 1.2
    ensures Lists(found, DrawdownHigh) <==> r.standard.drawdown > 10.0
  {
    hide Note, Ranked, Under, Lists;
    found := NothingNoted(Place);
    found := NoteInOrder(found, samples < MIN_SAMPLES, TooFewSamples, Place, 0);
    found := NoteInOrder(found, r.calendarDays < MIN_CALENDAR_DAYS, TooFewDays, Place, 12);
    found := NoteInOrder(found, |r.regimes| < 2, TooFewRegimes, Place, 13);
    found := NoteInOrder(found, r.standard.net <= 0.0, NetNotPositive, Place, 14);
    found := NoteInOrder(found, r.standard.profitFactor < MIN_PROFIT_FACTOR, ProfitFactorLow, Place, 15);
    found := NoteInOrder(found, r.standard.drawdown > MAX_DRAWDOWN_PERCENT, DrawdownHigh, Place, 16);
  }

  lemma GatesAreNoted(valid: seq<Row>, r: Report) returns (found: seq<Blocker>)
    ensures found == Gates(valid, r.calendarDays, |r.regimes|, r.standard, r.heldOut, r.training, r.stressed)
    ensures |valid| == |HeldOut(valid)| + |Training(valid)|
    ensures GatesBlock(|HeldOut(valid)|, |Training(valid)|, r, found)
  {
    var held, train := |HeldOut(valid)|, |Training(valid)|;
    SidesAreAll(valid);
    hide HeldOut, Training, Ranked, Under, Lists, NoteTotals, NoteHeldOut, Note, Collapsed;
    var early := EarlyGates(|valid|, r);
    found := LateGates(early, held, train, r);
  }

  lemma HeldOutIsNoted(found: seq<Blocker>, held: nat, train: nat, r: Report)
    ensures NoteHeldOut(found, r.heldOut.net, held, r.training.net, train) ==
      Note(Note(found, held == 0 || r.heldOut.net <= 0.0, HeldOutNotPositive), Collapsed(held, train, r),
           WalkForwardCollapse)
  {
  }

  lemma LateGates(early: seq<Blocker>, held: nat, train: nat, r: Report) returns (found: seq<Blocker>)
    requires Ranked(early, Place) && Under(early, Place, 17) && SameLists(early, [], 11, 17)
    ensures found == Note(NoteHeldOut(early, r.heldOut.net, held, r.training.net, train),
                          r.stressed.net <= STRESS_CATASTROPHE, StressCatastrophic)
    ensures Ranked(found, Place) && SameLists(found, early, 17, 20)
    ensures Lists(found, HeldOutNotPositive) <==> held == 0 || !(r.heldOut.net > 0.0)
    ensures Lists(found, WalkForwardCollapse) <==> Collapsed(held, train, r)
    ensures Lists(found, StressCatastrophic) <==> r.stressed.net <= -10.0
  {
    HeldOutIsNoted(early, held, train, r);
    hide Note, NoteHeldOut, Ranked, Under, Lists, Collapsed;
    var none := NothingNoted(Place);
    found := NoteInOrder(early, held == 0 || r.heldOut.net <= 0.0, HeldOutNotPositive, Place, 17);
    found := NoteInOrder(found, Collapsed(held, train, r), WalkForwardCollapse, Place, 18);
    found := NoteInOrder(found, r.stressed.net <= STRESS_CATASTROPHE, StressCatastrophic, Place, 19);
  }

  lemma {:induction false} SidesAreAll(rows: seq<Row>)
    ensures |rows| == |HeldOut(rows)| + |Training(rows)|
    decreases |rows|
  {
    if rows != [] {
      SidesAreAll(rows[..|rows| - 1]);
    }
  }

  // ---------- the list of blockers ----------

  /** Some genuine row has this blocker. */
  ghost predicate SomeRowHas(version: string, now: Stamp, rows: seq<Row>, b: Blocker) {
    exists row :: row in rows && !row.fixtureOnly && b in RowBlockers(version, now, row)
  }

  lemma {:induction false} RowBlockersAreListed(version: string, now: Stamp, rows: seq<Row>, b: Blocker)
    ensures b in AllRowBlockers(version, now, rows) <==> SomeRowHas(version, now, rows, b)
  {
    hide RowBlockers;
    if rows != [] {
      RowBlockersAreListed(version, now, rows[1..], b);
      assert forall row :: row in rows <==> row == rows[0] || row in rows[1..];
    }
  }

  /** The first place of a blocker. */
  predicate FirstAt(bs: seq<Blocker>, b: Blocker, i: nat) {
    i < |bs| && bs[i] == b && forall k :: 0 <= k < i ==> bs[k] != b
  }

  /** `a` comes up before `b` does. */
  ghost predicate Earlier(bs: seq<Blocker>, a: Blocker, b: Blocker) {
    exists i: nat, j: nat :: FirstAt(bs, a, i) && FirstAt(bs, b, j) && i < j
  }

  lemma FirstPlace(bs: seq<Blocker>, b: Blocker) returns (i: nat)
    requires b in bs
    ensures FirstAt(bs, b, i)
  {
    i := 0;
    while bs[i] != b
      invariant i < |bs| && forall k :: 0 <= k < i ==> bs[k] != b
      decreases |bs| - i
    {
      i := i + 1;
    }
  }

  /** Each blocker is listed once, in the order in which they first come up. */
  lemma {:induction false} DedupeKeepsOrder(bs: seq<Blocker>)
    ensures forall x, y :: 0 <= x < y < |Dedupe(bs)| ==> Earlier(bs, Dedupe(bs)[x], Dedupe(bs)[y])
    decreases |bs|
  {
    if bs != [] {
      var init, last, r := bs[..|bs| - 1], bs[|bs| - 1], Dedupe(bs);
      assert bs == init + [last];
      DedupeKeepsOrder(init);
      forall x, y | 0 <= x < y < |r|
        ensures Earlier(bs, r[x], r[y])
      {
        var i: nat, j: nat;
        if y < |Dedupe(init)| {
          assert Earlier(init, Dedupe(init)[x], Dedupe(init)[y]);
          i, j :| FirstAt(init, r[x], i) && FirstAt(init, r[y], j) && i < j;
        } else {
          assert r[x] in init;
          i := FirstPlace(init, r[x]);
          j := |init|;
        }
        assert FirstAt(bs, r[x], i) && FirstAt(bs, r[y], j);
      }
    }
  }

  /** The blockers of a report are those of its genuine rows and then those of its figures, each once
      and in the order in which they come up; it is ready if and only if there is none. */
  lemma BlockersAreThese(version: string, rows: seq<Row>, now: Stamp, r: Report)
    returns (found: seq<Blocker>, gates: seq<Blocker>)
    requires IsReport(version, rows, now, r)
    ensures var clean := Clean(version, now, rows);
      GatesBlock(|OfSide(clean, true)|, |OfSide(clean, false)|, r, gates)
    ensures forall b :: b in found <==> SomeRowHas(version, now, rows, b)
    ensures forall b :: b in r.blockers <==> b in found || b in gates
    ensures forall x, y :: 0 <= x < y < |r.blockers| ==> Earlier(found + gates, r.blockers[x], r.blockers[y])
    ensures r.ready <==> r.blockers == []
  {
    var valid := Valid(version, now, rows);
    ValidIsClean(version, now, rows);
    SideIsOfSide(valid, true);
    SideIsOfSide(valid, false);
    found := AllRowBlockers(version, now, rows);
    gates := GatesAreNoted(valid, r);
    hide IsMetrics, Gates, AllRowBlockers, Valid, Clean, Side, OfSide, GatesBlock, SomeRowHas, Earlier;
    DedupeKeepsOrder(found + gates);
    forall b
      ensures b in found <==> SomeRowHas(version, now, rows, b)
    {
      RowBlockersAreListed(version, now, rows, b);
    }
  }
}
