/** What `PaperTrader` does to a position, written out in prices, settings and clock readings. */
module PaperTraderLaws {
  import opened Common
  import opened Options
  import opened PaperTrader

  // ---------- buying ----------

  /** The share of the price that the trading speed costs, in percent. */
  function SpeedPct(speed: string): real {
    match speed
    case "slow" => 0.0
    case "fast" => 0.12
    case "turbo" => 0.25
    case _ => 0.05
  }

  function Positive(x: real): real {
    if x > 0.0 then x else 0.0
  }

  /** What a trade of this size pays: the provider's share, the network's fee, the priority fee. */
  function FeeFor(size: real, s: Settings): real {
    size * (s.feeBps / 10000.0) + 0.000005 + Positive(s.priorityFee)
  }

  /** A fill fails when the token's bucket, one whole unit up, is within the configured rate. */
  lemma FailedFill(p: Position, s: Settings, bucket: nat, velocity: real, now: real)
    ensures FillFails(bucket, s) <==> s.failedFillPct > 0.0 && bucket as real + 1.0 <= s.failedFillPct * 100.0
    ensures FillFails(bucket, s) ==>
      Buy(p, s, bucket, velocity, now) == p.(status := Skipped, fillFailed := true)
  {
  }

  function Raised(price: real, pct: real): real {
    price * (1.0 + pct / 100.0)
  }

  lemma EntryPriceIs(current: Option<real>, s: Settings, impact: real)
    ensures var quoted := if current.Some? && current.value != 0.0 then current.value else 0.00001;
      var asked := Raised(quoted, s.slippagePct + impact);
      EntryPrice(current, s, impact) == if asked >= 0.000001 then asked else 0.000001
  {
  }

  /** A filled buy, field by field: the price is the quoted one plus slippage and impact, the fee
      is that of the stake, and nothing else of the position is touched. */
  lemma FilledBuy(p: Position, s: Settings, bucket: nat, velocity: real, now: real)
    requires !FillFails(bucket, s)
    ensures var b := Buy(p, s, bucket, velocity, now);
      var impact := s.impactPct + SpeedPct(s.tradingSpeed) + (if s.velocitySlippage then velocity * 0.08 else 0.0);
      var quoted := if p.current.Some? && p.current.value != 0.0 then p.current.value else 0.00001;
      var asked := Raised(quoted, s.slippagePct + impact);
      var price := Some(if asked >= 0.000001 then asked else 0.000001);
      && b.amount == Some(s.tradeSize)
      && b.entry == price && b.current == price && b.peak == price && b.trough == price
      && b.openedAt == Some(now) && b.pnl == Some(0.0)
      && b.feePaid == FeeFor(s.tradeSize, s) && b.exitFee == 0.0
      && b.delay == (if s.fillDelayTicks > 0 then s.fillDelayTicks else p.delay)
      && b.status == (if b.delay > 0 then Buying else PaperBought)
      && b.costs == Costs(impact, s.slippagePct, s.tradeSize * (s.slippagePct / 100.0), s.tradeSize * (impact / 100.0),
                          FeeParts(s.tradeSize * (s.feeBps / 10000.0), 0.000005, Positive(s.priorityFee)),
                          p.costs.exit, FeeFor(s.tradeSize, s))
      && (b.exit, b.closedAt, b.ticks, b.hold) == (p.exit, p.closedAt, p.ticks, p.hold)
      && (b.unrealized, b.highest, b.lowest) == (p.unrealized, p.highest, p.lowest)
      && (b.partialTaken, b.realized, b.remaining) == (p.partialTaken, p.realized, p.remaining)
      && (b.fillFailed, b.exitReason) == (p.fillFailed, p.exitReason)
  {
    var impact := ImpactPct(s, velocity);
    assert SpeedPct(s.tradingSpeed) == SpeedImpact(s.tradingSpeed);
    EntryPriceIs(p.current, s, impact);
  }

  /** A bought position waits out its delay, whatever the prices, and is then live. */
  lemma {:induction false} WaitsForItsFill(p: Position, qs: seq<Quote>)
    requires Sane(p) && p.status.Buying? && 0 < |qs| <= p.delay
    ensures Path(p, qs) == p.(delay := p.delay - |qs|, status := if |qs| == p.delay then PaperBought else Buying)
    decreases |qs|
  {
    var next := Tick(p, qs[0]).0;
    if |qs| == 1 {
      assert Path(next, qs[1..]) == next;
    } else {
      WaitsForItsFill(next, qs[1..]);
    }
  }

  // ---------- marking ----------

  /** The whole seconds from `start` to `now`, none if the clock has gone back. */
  predicate WholeSeconds(start: real, now: real, seconds: int) {
    if now < start then seconds == 0 else seconds as real <= now - start < seconds as real + 1.0
  }

  lemma HoldIsWholeSeconds(start: real, now: real)
    ensures WholeSeconds(start, now, HoldSeconds(start, now))
  {
  }

  /** What a position nets if it is sold whole: the gain on its stake, less the fee of the buy,
      less the fee of the sale. */
  function Worth(stake: real, paid: real, entry: real, price: real, s: Settings): real
    requires entry > 0.0
  {
    stake * (price / entry - 1.0) - paid - FeeFor(Proceeds(stake, entry, price), s)
  }

  function StakeOf(p: Position, s: Settings): real {
    if p.amount.Some? && p.amount.value != 0.0 then p.amount.value else s.tradeSize
  }

  lemma Quotient(x: real, y: real, d: real)
    requires d != 0.0 && x * d == y
    ensures y / d == x
  {
  }

  lemma GainArithmetic(stake: real, entry: real, price: real)
    requires entry > 0.0
    ensures stake * ((price - entry) / entry * 100.0 / 100.0) == stake * (price / entry - 1.0)
  {
    Quotient(price / entry - 1.0, price - entry, entry);
  }

  /** What a sale of the whole position would bring in; without a price, what was put in. */
  function Proceeds(stake: real, entry: real, price: real): real
    requires entry > 0.0
  {
    if price > 0.0 then Positive(stake * (price / entry)) else Positive(stake)
  }

  lemma ExitIs(p: Position, s: Settings)
    requires p.entry.Some? && p.current.Some? && p.entry.value > 0.0
    ensures var proceeds := Proceeds(StakeOf(p, s), p.entry.value, p.current.value);
      && ExitParts(p, s) == FeeParts(proceeds * (s.feeBps / 10000.0), 0.000005, Positive(s.priorityFee))
      && ExitFee(p, s) == FeeFor(proceeds, s)
  {
    assert ExitNotional(Or(p.amount, s.tradeSize), p.entry.value, p.current.value)
        == Proceeds(StakeOf(p, s), p.entry.value, p.current.value);
  }

  lemma NetIsWorth(p: Position, s: Settings)
    requires p.entry.Some? && p.current.Some? && p.entry.value > 0.0
    ensures Net(p, s) == Worth(StakeOf(p, s), p.feePaid, p.entry.value, p.current.value, s)
  {
    ExitIs(p, s);
    GainArithmetic(StakeOf(p, s), p.entry.value, p.current.value);
    hide FeeFor, Proceeds, ExitFee;
  }

  /** What is realised, and the open share of what the whole would net. */
  function Booked(realized: real, worth: real, open: real): real {
    realized + worth * Positive(open)
  }

  lemma ProfitIsBooked(realized: real, worth: real, remaining: real)
    ensures Profit(realized, worth, remaining) == Booked(realized, worth, remaining)
  {
    assert Max(0.0, remaining) == Positive(remaining);
  }

  /** What marking makes of a position with an entry and a price: its profit is what is realised
      and its open share of what the whole would net. */
  predicate IsMarked(p: Position, m: Position, s: Settings, now: real)
    requires p.entry.Some? && p.current.Some? && p.entry.value > 0.0
  {
    var entry, price, stake := p.entry.value, p.current.value, StakeOf(p, s);
    && m.pnl == Some(Booked(p.realized, Worth(stake, p.feePaid, entry, price, s), p.remaining))
    && m.exitFee == FeeFor(Proceeds(stake, entry, price), s)
    && m.costs == p.costs.(exit := FeeParts(Proceeds(stake, entry, price) * (s.feeBps / 10000.0), 0.000005,
                                            Positive(s.priorityFee)),
                           fees := p.feePaid + m.exitFee)
    && m.unrealized == (price - entry) / entry * 100.0
    && m.highest == (if m.unrealized > p.highest then m.unrealized else p.highest)
    && m.lowest == (if m.unrealized < p.lowest then m.unrealized else p.lowest)
    && (if p.openedAt.Some? then WholeSeconds(p.openedAt.value, now, m.hold) else m.hold == p.hold)
    && m == p.(pnl := m.pnl, exitFee := m.exitFee, costs := m.costs, unrealized := m.unrealized,
               highest := m.highest, lowest := m.lowest, hold := m.hold)
  }

  lemma MarkedProfit(p: Position, s: Settings, now: real)
    requires Sane(p)
    ensures if p.entry.Some? && p.current.Some? then IsMarked(p, Mark(p, s, now), s, now) else Mark(p, s, now) == p
  {
    if p.entry.Some? && p.current.Some? {
      NetIsWorth(p, s);
      ExitIs(p, s);
      ProfitIsBooked(p.realized, Worth(StakeOf(p, s), p.feePaid, p.entry.value, p.current.value, s), p.remaining);
      hide Net, Worth, FeeFor, Proceeds, ExitParts, Profit, Booked;
      if p.openedAt.Some? {
        HoldIsWholeSeconds(p.openedAt.value, now);
      }
    }
  }

  /** With nothing realised and everything open, in the settings themselves: the gain on the stake,
      less the fee that a buy with these settings has paid, less the fee of selling what the
      stake has become. */
  lemma WholePositionProfit(p: Position, s: Settings, now: real)
    requires p.entry.Some? && p.current.Some? && p.entry.value > 0.0 && p.current.value > 0.0
    requires s.tradeSize > 0.0 && p.amount == Some(s.tradeSize) && p.realized == 0.0 && p.remaining == 1.0
    requires p.feePaid
          == s.tradeSize * (s.feeBps / 10000.0) + 0.000005 + (if s.priorityFee > 0.0 then s.priorityFee else 0.0)
    ensures var stake, ratio := s.tradeSize, p.current.value / p.entry.value;
      var priority := if s.priorityFee > 0.0 then s.priorityFee else 0.0;
      && Mark(p, s, now).pnl.Some?
      && Mark(p, s, now).pnl.value == stake * (ratio - 1.0)
                                      - (stake * (s.feeBps / 10000.0) + 0.000005 + priority)
                                      - (stake * ratio * (s.feeBps / 10000.0) + 0.000005 + priority)
  {
    MarkedProfit(p, s, now);
    WorthWrittenOut(s.tradeSize, p.entry.value, p.current.value, s);
    assert p.feePaid == FeeFor(s.tradeSize, s) && StakeOf(p, s) == s.tradeSize;
    hide *;
    WholeIsBooked(Worth(s.tradeSize, p.feePaid, p.entry.value, p.current.value, s));
  }

  lemma WholeIsBooked(worth: real)
    ensures Booked(0.0, worth, 1.0) == worth
  {
  }

  lemma PositiveProduct(x: real, y: real)
    requires x > 0.0 && y > 0.0
    ensures x * y > 0.0
  {
  }

  lemma PositiveQuotient(x: real, y: real)
    requires x > 0.0 && y > 0.0
    ensures x / y > 0.0
  {
  }

  lemma WorthWrittenOut(stake: real, entry: real, price: real, s: Settings)
    requires stake > 0.0 && entry > 0.0 && price > 0.0
    ensures var ratio, priority := price / entry, if s.priorityFee > 0.0 then s.priorityFee else 0.0;
      Worth(stake, FeeFor(stake, s), entry, price, s)
      == stake * (ratio - 1.0)
         - (stake * (s.feeBps / 10000.0) + 0.000005 + priority)
         - (stake * ratio * (s.feeBps / 10000.0) + 0.000005 + priority)
  {
    PositiveQuotient(price, entry);
    PositiveProduct(stake, price / entry);
    assert Proceeds(stake, entry, price) == stake * (price / entry);
    hide Proceeds;
    assert FeeFor(Proceeds(stake, entry, price), s) == FeeFor(stake * (price / entry), s);
  }

  // ---------- ticks ----------

  lemma NextPriceIs(current: Option<real>, entry: real, deltaPct: real)
    ensures var moved := Raised(if current.Some? && current.value != 0.0 then current.value else entry, deltaPct);
      NextPrice(current, entry, deltaPct) == if moved >= 0.0000001 then moved else 0.0000001
  {
  }

  /** The price of a tick: the last one moved by the given percentage, never below the floor; the
      peak and the trough follow it. */
  lemma TickedPrice(p: Position, deltaPct: real)
    requires p.entry.Some?
    ensures var last := if p.current.Some? && p.current.value != 0.0 then p.current.value else p.entry.value;
      var moved := Raised(last, deltaPct);
      var price := if moved >= 0.0000001 then moved else 0.0000001;
      Reprice(p, deltaPct) == p.(
        status := Monitoring, ticks := p.ticks + 1, current := Some(price),
        peak := Some(if p.peak.Some? && p.peak.value != 0.0 && p.peak.value > price then p.peak.value else price),
        trough := Some(if p.trough.Some? && p.trough.value != 0.0 && p.trough.value < price then p.trough.value
                       else price))
  {
    NextPriceIs(p.current, p.entry.value, deltaPct);
    hide NextPrice, Raised;
  }

  function Clamp(x: real): real {
    if x < 0.0 then 0.0 else if x > 1.0 then 1.0 else x
  }

  lemma FractionIsClamped(s: Settings)
    ensures Fraction(s) == Clamp(s.partialFraction)
  {
  }

  /** The partial fill of a tick: taken once, as soon as the move reaches its threshold, it
      realises its share of the marked profit and leaves that much less open. */
  lemma PartialFill(p: Position, q: Quote)
    requires Sane(p) && Live(p)
    ensures var m := Mark(Reprice(p, q.deltaPct), q.s, q.marked);
      var f := Clamp(q.s.partialFraction);
      m.pnl.Some? &&
      Marked(p, q) ==
        if q.s.partialEnabled && !p.partialTaken && m.unrealized >= q.s.partialPct then
          m.(realized := m.realized + m.pnl.value * f, remaining := Positive(m.remaining - f), partialTaken := true)
        else m
  {
    FractionIsClamped(q.s);
    hide Fraction, NextPrice, Net, ExitParts, Profit, HoldSeconds;
  }

  /** The ladder of exits: what has to hold of a marked position, and the reason recorded. */
  function Ladder(m: Position, q: Quote): seq<(bool, string)> {
    var s, move := q.s, m.unrealized;
    [(move >= s.takeProfitPct, "take profit"),
     (s.trailingEnabled && m.highest >= s.partialPct && m.highest - move >= s.trailingPct, "trailing stop"),
     (s.breakEvenEnabled && m.highest >= s.breakEvenAfterPct && move <= 0.0, "break-even stop"),
     (s.stalledEnabled && m.hold >= s.stalledSeconds && move <= s.stalledMovePct && -move <= s.stalledMovePct,
      "stalled trade"),
     (s.sellPressureEnabled && q.sellPressure >= s.sellPressureLimit, "sell pressure exit"),
     (-move >= s.stopLossPct, "stop loss"),
     (m.openedAt.Some? && q.checked - m.openedAt.value >= s.maxHold as real, "max hold time"),
     (m.ticks >= s.maxTicks, "max position ticks")]
  }

  /** The first rung of the ladder that holds. */
  predicate FirstRung(rungs: seq<(bool, string)>, i: nat) {
    i < |rungs| && rungs[i].0 && forall j :: 0 <= j < i ==> !rungs[j].0
  }

  lemma MoveIsUnrealized(p: Position, q: Quote)
    requires Sane(p) && Live(p)
    ensures var m := Marked(p, q);
      m.entry == p.entry && m.current.Some? && MovePct(m) == m.unrealized
  {
    hide NextPrice, Net, ExitParts, Profit, HoldSeconds, Fraction;
  }

  lemma LadderDecides(m: Position, q: Quote) returns (i: nat)
    requires m.entry.Some? && m.current.Some? && m.entry.value != 0.0 && MovePct(m) == m.unrealized
    ensures match ExitReason(m, q.s, q.sellPressure, q.checked)
      case Some(reason) => FirstRung(Ladder(m, q), i) && reason == Ladder(m, q)[i].1
      case None => forall j :: 0 <= j < |Ladder(m, q)| ==> !Ladder(m, q)[j].0
  {
    hide MovePct;
    var rungs := Ladder(m, q);
    i := if rungs[0].0 then 0 else if rungs[1].0 then 1 else if rungs[2].0 then 2 else if rungs[3].0 then 3
         else if rungs[4].0 then 4 else if rungs[5].0 then 5 else if rungs[6].0 then 6 else 7;
  }

  /** A live tick sells exactly when the minimum hold time is over and some rung holds, for the
      reason of the first that does; the sale is at the price of the tick, marked once more. */
  lemma TickSells(p: Position, q: Quote) returns (i: nat)
    requires Sane(p) && Live(p)
    ensures var m, r, done := Marked(p, q), Tick(p, q).0, Tick(p, q).1;
      && Sane(m)
      && (done ==> m.hold >= q.s.minHold && FirstRung(Ladder(m, q), i))
      && (!done ==> r == m && (m.hold < q.s.minHold || forall j :: 0 <= j < |Ladder(m, q)| ==> !Ladder(m, q)[j].0))
      && (done ==>
            && r == Mark(m, q.s, q.remarked).(status := PaperSold, exit := m.current, closedAt := Some(q.closed),
                                              exitReason := Ladder(m, q)[i].1, hold := r.hold)
            && (m.openedAt.Some? ==> WholeSeconds(m.openedAt.value, q.closed, r.hold)))
  {
    MoveIsUnrealized(p, q);
    i := LadderDecides(Marked(p, q), q);
    MarkKeepsPrices(Marked(p, q), q.s, q.remarked);
    MarkKeepsOpening(Marked(p, q), q.s, q.remarked);
    if p.openedAt.Some? {
      HoldIsWholeSeconds(p.openedAt.value, q.closed);
    }
    hide Mark, ExitReason, Ladder, FirstRung, MovePct, HoldSeconds;
  }

  lemma MarkKeepsOpening(m: Position, s: Settings, now: real)
    requires Sane(m)
    ensures Mark(m, s, now).openedAt == m.openedAt
  {
  }

  /** A tick of a position that is not live changes nothing but the delay it waits out. */
  lemma OtherTicks(p: Position, q: Quote)
    requires Sane(p) && (p.entry.None? || (p.status != PaperBought && p.status != Monitoring))
    ensures Tick(p, q) ==
      (if p.status == Buying && p.delay >= 1
       then p.(delay := p.delay - 1, status := if p.delay == 1 then PaperBought else Buying) else p, false)
  {
  }

  // ---------- the final profit of a path ----------

  /** What every path from a buy leaves alone, and the price it always has. */
  predicate SameStake(b: Position, t: Position) {
    && t.amount == b.amount && t.feePaid == b.feePaid && t.entry == b.entry
    && t.entry.Some? && t.entry.value > 0.0 && t.current.Some? && t.current.value > 0.0
  }

  /** A position just bought, of which nothing has been sold. */
  predicate JustBought(b: Position) {
    SameStake(b, b) && !b.status.PaperSold? && !b.partialTaken && b.realized == 0.0 && b.remaining == 1.0
  }

  lemma TickKeepsStake(b: Position, p: Position, q: Quote)
    requires Sane(p) && SameStake(b, p)
    ensures SameStake(b, Tick(p, q).0)
    ensures Live(p) ==> Tick(p, q).0.current == Reprice(p, q.deltaPct).current
  {
    hide NextPrice, Net, ExitParts, Profit, HoldSeconds, Fraction, ExitReason;
  }

  lemma {:induction false} PathKeepsStake(b: Position, p: Position, qs: seq<Quote>)
    requires Sane(p) && SameStake(b, p)
    ensures SameStake(b, Path(p, qs))
    decreases |qs|
  {
    hide Tick, SameStake;
    if qs != [] {
      TickKeepsSane(p, qs[0]);
      TickKeepsStake(b, p, qs[0]);
      PathKeepsStake(b, Tick(p, qs[0]).0, qs[1..]);
    }
  }

  lemma PathSnoc(p: Position, qs: seq<Quote>, q: Quote)
    requires Sane(p)
    ensures Path(p, qs + [q]) == Tick(Path(p, qs), q).0
  {
    PathSplit(p, qs + [q], |qs|);
    assert (qs + [q])[..|qs|] == qs && (qs + [q])[|qs|..] == [q] && [q][1..] == [];
    hide Tick;
    assert Path(Path(p, qs), [q]) == Path(Tick(Path(p, qs), q).0, [q][1..]);
  }

  /** What the position would net as a whole at the price of tick `i`, with that tick's settings. */
  function WorthAt(b: Position, qs: seq<Quote>, i: nat): real
    requires i < |qs| && Sane(b) && SameStake(b, b)
  {
    PathKeepsStake(b, b, qs[..i + 1]);
    Worth(StakeOf(b, qs[i].s), b.feePaid, b.entry.value, Path(b, qs[..i + 1]).current.value, qs[i].s)
  }

  predicate PartialAt(b: Position, qs: seq<Quote>, i: nat)
    requires Sane(b)
  {
    i < |qs| && !Path(b, qs[..i]).partialTaken && Path(b, qs[..i + 1]).partialTaken
  }

  predicate SoldAt(b: Position, qs: seq<Quote>, j: nat)
    requires Sane(b)
  {
    j < |qs| && !Path(b, qs[..j]).status.PaperSold? && Path(b, qs[..j + 1]).status.PaperSold?
  }

  /** The books after a path: the partial was taken at `i`, the rest was sold at `j`. */
  predicate Ledger(b: Position, qs: seq<Quote>, i: nat, j: nat)
    requires Sane(b) && SameStake(b, b)
  {
    var t := Path(b, qs);
    && (!t.partialTaken ==> t.remaining == 1.0 && t.realized == 0.0)
    && (t.partialTaken ==> PartialAt(b, qs, i) && Shared(t, Clamp(qs[i].s.partialFraction), WorthAt(b, qs, i)))
    && (t.status.PaperSold? ==> SoldAt(b, qs, j) && t.pnl == Some(Booked(t.realized, WorthAt(b, qs, j), t.remaining)))
  }

  predicate Shared(t: Position, f: real, worth: real) {
    t.remaining == 1.0 - f && t.realized == f * worth
  }

  lemma EarlierTick(b: Position, qs: seq<Quote>, q: Quote, i: nat)
    requires Sane(b) && SameStake(b, b) && i < |qs|
    ensures PartialAt(b, qs + [q], i) == PartialAt(b, qs, i) && SoldAt(b, qs + [q], i) == SoldAt(b, qs, i)
    ensures WorthAt(b, qs + [q], i) == WorthAt(b, qs, i) && (qs + [q])[i] == qs[i]
  {
    assert (qs + [q])[..i] == qs[..i] && (qs + [q])[..i + 1] == qs[..i + 1];
  }

  /** What a live tick adds to the books. */
  lemma LiveTickBooks(b: Position, p: Position, q: Quote)
    requires Sane(b) && Sane(p) && Live(p) && SameStake(b, p)
    requires !p.partialTaken ==> p.remaining == 1.0 && p.realized == 0.0
    ensures var t := Tick(p, q).0;
      SameStake(b, t) &&
      var worth := Worth(StakeOf(b, q.s), b.feePaid, b.entry.value, t.current.value, q.s);
      && (p.partialTaken ==> t.partialTaken)
      && (t.partialTaken == p.partialTaken ==> t.realized == p.realized && t.remaining == p.remaining)
      && (t.partialTaken != p.partialTaken ==> Shared(t, Clamp(q.s.partialFraction), worth))
      && (t.status.PaperSold? ==> t.pnl == Some(Booked(t.realized, worth, t.remaining)))
  {
    TickKeepsStake(b, p, q);
    MarkedBooks(p, q);
    TickOutcome(p, q);
    FractionIsClamped(q.s);
    RepriceKeepsSane(p, q.deltaPct);
    NetIsWorth(Reprice(p, q.deltaPct), q.s);
    assert StakeOf(Reprice(p, q.deltaPct), q.s) == StakeOf(b, q.s) && Reprice(p, q.deltaPct).feePaid == b.feePaid;
    PartialStays(p, q);
    var n := Marked(p, q);
    hide Tick, Marked, Net, Mark, Reprice, Worth, Fraction, Clamp, StakeOf;
    ProfitIsBooked(n.realized, Net(n, q.s), n.remaining);
    hide Profit, Booked;
  }

  lemma PartialStays(p: Position, q: Quote)
    requires Sane(p) && Live(p)
    ensures p.partialTaken ==> Marked(p, q).partialTaken
  {
    hide NextPrice, Net, ExitParts, Profit, HoldSeconds, Fraction;
  }

  lemma NewTick(b: Position, qs: seq<Quote>, q: Quote)
    requires Sane(b) && SameStake(b, b)
    ensures var p, t, n := Path(b, qs), Path(b, qs + [q]), |qs|;
      && SameStake(b, p) && SameStake(b, t) && t == Tick(p, q).0 && (qs + [q])[n] == q
      && PartialAt(b, qs + [q], n) == (!p.partialTaken && t.partialTaken)
      && SoldAt(b, qs + [q], n) == (!p.status.PaperSold? && t.status.PaperSold?)
      && WorthAt(b, qs + [q], n) == Worth(StakeOf(b, q.s), b.feePaid, b.entry.value, t.current.value, q.s)
  {
    PathSnoc(b, qs, q);
    PathKeepsStake(b, b, qs);
    PathKeepsStake(b, b, qs + [q]);
    assert (qs + [q])[..|qs|] == qs && (qs + [q])[..|qs| + 1] == qs + [q];
    hide Tick, SameStake, Worth;
  }

  /** What a tick that is not live leaves of the books. */
  lemma OtherTickBooks(p: Position, q: Quote)
    requires Sane(p) && !Live(p)
    ensures var t := Tick(p, q).0;
      && t.partialTaken == p.partialTaken && t.realized == p.realized && t.remaining == p.remaining && t.pnl == p.pnl
      && (t.status.PaperSold? <==> p.status.PaperSold?)
  {
  }

  lemma LedgerGrows(b: Position, qs: seq<Quote>, q: Quote, i: nat, j: nat) returns (i': nat, j': nat)
    requires Sane(b) && SameStake(b, b) && Ledger(b, qs, i, j)
    ensures Ledger(b, qs + [q], i', j')
  {
    var p, t, n := Path(b, qs), Path(b, qs + [q]), |qs|;
    NewTick(b, qs, q);
    if i < n { EarlierTick(b, qs, q, i); }
    if j < n { EarlierTick(b, qs, q, j); }
    i' := if t.partialTaken && !p.partialTaken then n else i;
    j' := if t.status.PaperSold? && !p.status.PaperSold? then n else j;
    assert Live(p) ==> !p.status.PaperSold?;
    assert PartialAt(b, qs, i) ==> i < n;
    assert SoldAt(b, qs, j) ==> j < n;
    hide Live, Sane, SameStake, PartialAt, SoldAt, WorthAt, Shared, Tick, Path, Worth, Booked, Clamp, StakeOf;
    if Live(p) {
      LiveTickBooks(b, p, q);
    } else {
      OtherTickBooks(p, q);
    }
  }

  lemma {:induction false} LedgerOf(b: Position, qs: seq<Quote>) returns (i: nat, j: nat)
    requires Sane(b) && JustBought(b)
    ensures Ledger(b, qs, i, j)
    decreases |qs|
  {
    if qs == [] {
      i, j := 0, 0;
    } else {
      hide Ledger;
      var front, last := qs[..|qs| - 1], qs[|qs| - 1];
      i, j := LedgerOf(b, front);
      i, j := LedgerGrows(b, front, last, i, j);
      assert front + [last] == qs;
    }
  }

  /** The profit of a sold position, over any path from a buy and whatever the settings of its ticks:
      what the whole position would have netted at the tick `j` that sold it; or, if a partial fill was
      taken, at the tick `i`, the blend of the two values in the share that was then sold. */
  lemma FinalProfit(p: Position, s: Settings, bucket: nat, velocity: real, now: real, qs: seq<Quote>)
    returns (i: nat, j: nat)
    requires Untouched(p) && Sane(p) && !FillFails(bucket, s)
    ensures Sane(Buy(p, s, bucket, velocity, now))
    ensures SameStake(Buy(p, s, bucket, velocity, now), Buy(p, s, bucket, velocity, now))
    ensures var b := Buy(p, s, bucket, velocity, now);
      var t := Path(b, qs);
      && b.amount == Some(s.tradeSize) && b.feePaid == FeeFor(s.tradeSize, s)
      && (t.partialTaken ==> PartialAt(b, qs, i))
      && (t.status.PaperSold? ==> SoldAt(b, qs, j) && t.pnl.Some?)
      && (t.status.PaperSold? && !t.partialTaken ==> t.pnl.value == WorthAt(b, qs, j))
      && (t.status.PaperSold? && t.partialTaken ==>
            var f := Clamp(qs[i].s.partialFraction);
            t.pnl.value == f * WorthAt(b, qs, i) + (1.0 - f) * WorthAt(b, qs, j))
  {
    FilledBuy(p, s, bucket, velocity, now);
    EntryPriceIsPositive(p, s, bucket, velocity, now);
    var b := Buy(p, s, bucket, velocity, now);
    i, j := LedgerOf(b, qs);
    hide Buy, FeeFor;
    LedgerBlends(b, qs, i, j);
  }

  lemma LedgerBlends(b: Position, qs: seq<Quote>, i: nat, j: nat)
    requires Sane(b) && SameStake(b, b) && Ledger(b, qs, i, j)
    ensures var t := Path(b, qs);
      && (t.partialTaken ==> PartialAt(b, qs, i))
      && (t.status.PaperSold? ==> SoldAt(b, qs, j) && t.pnl.Some?)
      && (t.status.PaperSold? && !t.partialTaken ==> t.pnl.value == WorthAt(b, qs, j))
      && (t.status.PaperSold? && t.partialTaken ==>
            var f := Clamp(qs[i].s.partialFraction);
            t.pnl.value == f * WorthAt(b, qs, i) + (1.0 - f) * WorthAt(b, qs, j))
  {
    hide Path, WorthAt, SameStake, Booked;
    var t := Path(b, qs);
    if t.status.PaperSold? {
      if t.partialTaken {
        BlendArithmetic(t.realized, t.remaining, Clamp(qs[i].s.partialFraction), WorthAt(b, qs, i), WorthAt(b, qs, j));
      } else {
        WholeIsBooked(WorthAt(b, qs, j));
      }
    }
  }

  lemma BlendArithmetic(realized: real, open: real, f: real, before: real, worth: real)
    requires 0.0 <= f <= 1.0 && realized == f * before && open == 1.0 - f
    ensures Booked(realized, worth, open) == f * before + (1.0 - f) * worth
  {
  }

  lemma EntryPriceIsPositive(p: Position, s: Settings, bucket: nat, velocity: real, now: real)
    requires Untouched(p) && Sane(p) && !FillFails(bucket, s)
    ensures Sane(Buy(p, s, bucket, velocity, now)) && JustBought(Buy(p, s, bucket, velocity, now))
  {
    hide PartsOf, EntryCosts, ImpactPct, Sum;
  }
}
