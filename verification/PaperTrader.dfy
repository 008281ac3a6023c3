/** The life of a paper position: buy, fill delay, ticks, partial take-profit, the ladder
    of exits, close.  Amounts are exact reals; `now` is the clock reading of the call. */
module PaperTrader {
  import opened Common
  import opened Options

  const BASE_FEE := 0.000005

  datatype Status = Detected | Analyzing | Buying | PaperBought | Monitoring | Selling | PaperSold | Skipped

  datatype Settings = Settings(
    tradeSize: real, tradingSpeed: string, slippagePct: real, impactPct: real, velocitySlippage: bool,
    feeBps: real, priorityFee: real, failedFillPct: real, fillDelayTicks: int, minHold: int,
    partialEnabled: bool, partialPct: real, partialFraction: real, takeProfitPct: real,
    trailingEnabled: bool, trailingPct: real, breakEvenEnabled: bool, breakEvenAfterPct: real,
    stalledEnabled: bool, stalledSeconds: int, stalledMovePct: real,
    sellPressureEnabled: bool, sellPressureLimit: real, stopLossPct: real, maxHold: int, maxTicks: int)

  datatype FeeParts = FeeParts(provider: real, network: real, priority: real)

  /** The breakdown of what a trade costs: percentages, costs of the entry, parts of both fees,
      and the total of the fees. */
  datatype Costs = Costs(impactPct: real, slippagePct: real, slippage: real, impact: real,
                         entry: FeeParts, exit: FeeParts, fees: real)

  /** The fields of a token signal that the trader reads and writes. */
  datatype Position = Position(
    status: Status, amount: Option<real>, entry: Option<real>, current: Option<real>, exit: Option<real>,
    openedAt: Option<real>, closedAt: Option<real>, delay: int, ticks: int, peak: Option<real>, trough: Option<real>,
    unrealized: real, highest: real, lowest: real, hold: int, feePaid: real, exitFee: real, pnl: Option<real>,
    partialTaken: bool, realized: real, remaining: real, fillFailed: bool, exitReason: string, costs: Costs)

  /** Python's `x or default`: zero counts as absent. */
  function Or(x: Option<real>, default: real): real {
    if x.Some? && x.value != 0.0 then x.value else default
  }

  /** Python's `int()` on a float: toward zero. */
  function Truncate(x: real): int {
    if x >= 0.0 then x.Floor else -(-x).Floor
  }

  function HoldSeconds(openedAt: real, now: real): int {
    if Truncate(now - openedAt) < 0 then 0 else Truncate(now - openedAt)
  }

  // ---------- prices and fees ----------

  function SpeedImpact(speed: string): real {
    if speed == "slow" then 0.0 else if speed == "fast" then 0.12 else if speed == "turbo" then 0.25 else 0.05
  }

  function ProviderFee(amount: real, s: Settings): real {
    amount * (s.feeBps / 10000.0)
  }

  function PriorityFee(s: Settings): real {
    Max(0.0, s.priorityFee)
  }

  function ExitNotional(amount: real, entry: real, current: real): real {
    if entry <= 0.0 || current <= 0.0 then Max(0.0, amount) else Max(0.0, amount * (current / entry))
  }

  function PartsOf(notional: real, s: Settings): FeeParts {
    FeeParts(ProviderFee(notional, s), BASE_FEE, PriorityFee(s))
  }

  function Sum(parts: FeeParts): real {
    parts.provider + parts.network + parts.priority
  }

  function ImpactPct(s: Settings, velocity: real): real {
    s.impactPct + SpeedImpact(s.tradingSpeed) + (if s.velocitySlippage then velocity * 0.08 else 0.0)
  }

  /** What a buy records of its costs. */
  function EntryCosts(c: Costs, s: Settings, impact: real): Costs {
    var parts := PartsOf(s.tradeSize, s);
    c.(impactPct := impact, slippagePct := s.slippagePct, slippage := s.tradeSize * (s.slippagePct / 100.0),
       impact := s.tradeSize * (impact / 100.0), entry := parts, fees := Sum(parts))
  }

  /** What marking records of the costs of selling now. */
  function ExitCosts(c: Costs, feePaid: real, parts: FeeParts): Costs {
    c.(exit := parts, fees := feePaid + Sum(parts))
  }

  /** A fill fails when the token's hash bucket, out of 10000, is under the configured rate. */
  predicate FillFails(bucket: nat, s: Settings) {
    s.failedFillPct > 0.0 && bucket < Truncate(s.failedFillPct * 100.0)
  }

  function EntryPrice(current: Option<real>, s: Settings, impact: real): (price: real)
    ensures price > 0.0
  {
    Max(0.000001, Or(current, 0.00001) * (1.0 + (s.slippagePct + impact) / 100.0))
  }

  function Staked(p: Position, s: Settings, impact: real): Position {
    p.(delay := if s.fillDelayTicks > 0 then s.fillDelayTicks else p.delay, amount := Some(s.tradeSize),
       feePaid := Sum(PartsOf(s.tradeSize, s)), exitFee := 0.0, pnl := Some(0.0),
       costs := EntryCosts(p.costs, s, impact))
  }

  function Filled(p: Position, price: real, now: real): Position {
    p.(status := if p.delay > 0 then Buying else PaperBought, entry := Some(price), current := Some(price),
       peak := Some(price), trough := Some(price), openedAt := Some(now))
  }

  function Buy(p: Position, s: Settings, bucket: nat, velocity: real, now: real): Position {
    if FillFails(bucket, s) then p.(status := Skipped, fillFailed := true)
    else
      var impact := ImpactPct(s, velocity);
      Filled(Staked(p, s, impact), EntryPrice(p.current, s, impact), now)
  }

  function Change(entry: real, current: real): real
    requires entry != 0.0
  {
    (current - entry) / entry * 100.0
  }

  function MovePct(p: Position): real
    requires p.entry.Some? && p.current.Some? && p.entry.value != 0.0
  {
    Change(p.entry.value, p.current.value)
  }

  function NetOf(size: real, move: real, feePaid: real, exitFee: real): real {
    size * (move / 100.0) - feePaid - exitFee
  }

  function ExitParts(p: Position, s: Settings): FeeParts
    requires p.entry.Some? && p.current.Some?
  {
    PartsOf(ExitNotional(Or(p.amount, s.tradeSize), p.entry.value, p.current.value), s)
  }

  function ExitFee(p: Position, s: Settings): real
    requires p.entry.Some? && p.current.Some?
  {
    Sum(ExitParts(p, s))
  }

  /** What the whole position would net if it were sold at the current price. */
  function Net(p: Position, s: Settings): real
    requires p.entry.Some? && p.current.Some? && p.entry.value != 0.0
  {
    NetOf(Or(p.amount, s.tradeSize), MovePct(p), p.feePaid, ExitFee(p, s))
  }

  /** The profit of a position: what is realised, and the open part at its net value. */
  function Profit(realized: real, net: real, remaining: real): real {
    realized + net * Max(0.0, remaining)
  }

  function Mark(p: Position, s: Settings, now: real): Position
    requires p.entry.Some? ==> p.entry.value != 0.0
  {
    if p.entry.None? || p.current.None? then p
    else
      var move := MovePct(p);
      p.(unrealized := move, highest := Max(p.highest, move), lowest := Min(p.lowest, move),
         hold := if p.openedAt.Some? then HoldSeconds(p.openedAt.value, now) else p.hold,
         exitFee := ExitFee(p, s), costs := ExitCosts(p.costs, p.feePaid, ExitParts(p, s)),
         pnl := Some(Profit(p.realized, Net(p, s), p.remaining)))
  }

  function Close(p: Position, s: Settings, reason: string, marked: real, closed: real): Position
    requires p.entry.Some? ==> p.entry.value != 0.0
  {
    var q := Mark(p, s, marked);
    q.(status := PaperSold, exit := q.current, closedAt := Some(closed), exitReason := reason,
       hold := if q.openedAt.Some? then HoldSeconds(q.openedAt.value, closed) else q.hold)
  }

  function NextPrice(current: Option<real>, entry: real, deltaPct: real): (price: real)
    ensures price > 0.0
  {
    Max(0.0000001, Or(current, entry) * (1.0 + deltaPct / 100.0))
  }

  /** The price of a tick is applied before anything is decided. */
  function Reprice(p: Position, deltaPct: real): Position
    requires p.entry.Some?
  {
    var price := NextPrice(p.current, p.entry.value, deltaPct);
    p.(status := Monitoring, ticks := p.ticks + 1, current := Some(price),
       peak := Some(Max(Or(p.peak, price), price)), trough := Some(Min(Or(p.trough, price), price)))
  }

  function Fraction(s: Settings): (f: real)
    ensures 0.0 <= f <= 1.0
  {
    Max(0.0, Min(1.0, s.partialFraction))
  }

  predicate TakesPartial(p: Position, s: Settings)
    requires p.entry.Some? && p.current.Some? && p.entry.value != 0.0
  {
    s.partialEnabled && !p.partialTaken && MovePct(p) >= s.partialPct
  }

  /** A share of the profit is added to what is realised. */
  function Realize(realized: real, profit: real, f: real): real {
    realized + profit * f
  }

  function TakePartial(p: Position, s: Settings): Position {
    p.(realized := Realize(p.realized, if p.pnl.Some? then p.pnl.value else 0.0, Fraction(s)),
       remaining := Max(0.0, p.remaining - Fraction(s)), partialTaken := true)
  }

  /** The ladder of exits, first match first. */
  function ExitReason(p: Position, s: Settings, sellPressure: real, now: real): Option<string>
    requires p.entry.Some? && p.current.Some? && p.entry.value != 0.0
  {
    var move := MovePct(p);
    if move >= s.takeProfitPct then Some("take profit")
    else if s.trailingEnabled && p.highest >= s.partialPct && move <= p.highest - s.trailingPct then
      Some("trailing stop")
    else if s.breakEvenEnabled && p.highest >= s.breakEvenAfterPct && move <= 0.0 then Some("break-even stop")
    else if s.stalledEnabled && p.hold >= s.stalledSeconds && -s.stalledMovePct <= move <= s.stalledMovePct then
      Some("stalled trade")
    else if s.sellPressureEnabled && sellPressure >= s.sellPressureLimit then Some("sell pressure exit")
    else if move <= -s.stopLossPct then Some("stop loss")
    else if p.openedAt.Some? && now - p.openedAt.value >= s.maxHold as real then Some("max hold time")
    else if p.ticks >= s.maxTicks then Some("max position ticks")
    else None
  }

  /** One tick's inputs, which may differ from tick to tick: settings, price change, sell pressure,
      and the clock readings of marking, of the check of the maximum hold time, and, on a
      close, of marking once more and of closing. */
  datatype Quote = Quote(s: Settings, deltaPct: real, sellPressure: real,
                         marked: real, checked: real, remarked: real, closed: real)

  predicate Sane(p: Position) {
    p.entry.Some? ==> p.entry.value > 0.0
  }

  predicate Live(p: Position) {
    (p.status.PaperBought? || p.status.Monitoring?) && p.entry.Some?
  }

  /** The position of a live tick after pricing, marking and the partial fill. */
  function Marked(p: Position, q: Quote): Position
    requires Live(p) && Sane(p)
  {
    var m := Mark(Reprice(p, q.deltaPct), q.s, q.marked);
    if TakesPartial(m, q.s) then TakePartial(m, q.s) else m
  }

  function Tick(p: Position, q: Quote): (Position, bool)
    requires Sane(p)
  {
    if p.status.Buying? && p.delay > 0 then
      (p.(delay := p.delay - 1, status := if p.delay == 1 then PaperBought else Buying), false)
    else if !Live(p) then (p, false)
    else
      var m := Marked(p, q);
      if m.hold < q.s.minHold then (m, false)
      else
        match ExitReason(m, q.s, q.sellPressure, q.checked)
        case None => (m, false)
        case Some(reason) => (Close(m, q.s, reason, q.remarked, q.closed), true)
  }

  lemma RepriceKeepsSane(p: Position, deltaPct: real)
    requires p.entry.Some? && Sane(p)
    ensures var r := Reprice(p, deltaPct); Sane(r) && r.entry == p.entry && r.current.Some?
  {
  }

  lemma MarkKeepsSane(p: Position, s: Settings, now: real)
    requires Sane(p)
    ensures var m := Mark(p, s, now); Sane(m) && m.entry == p.entry && m.current == p.current
  {
  }

  // ---------- the mutable token ----------

  class Token {
    var status: Status
    var amount: Option<real>
    var entry: Option<real>
    var current: Option<real>
    var exit: Option<real>
    var openedAt: Option<real>
    var closedAt: Option<real>
    var delay: int
    var ticks: int
    var peak: Option<real>
    var trough: Option<real>
    var unrealized: real
    var highest: real
    var lowest: real
    var hold: int
    var feePaid: real
    var exitFee: real
    var pnl: Option<real>
    var partialTaken: bool
    var realized: real
    var remaining: real
    var fillFailed: bool
    var exitReason: string
    var costs: Costs

    function View(): Position
      reads this
    {
      Position(status, amount, entry, current, exit, openedAt, closedAt, delay, ticks, peak, trough, unrealized,
               highest, lowest, hold, feePaid, exitFee, pnl, partialTaken, realized, remaining, fillFailed, exitReason,
               costs)
    }

    method Fill(price: real, now: real)
      modifies this`entry, this`current, this`peak, this`trough, this`openedAt, this`status
      ensures View() == Filled(old(View()), price, now)
    {
      var filled := if delay > 0 then Buying else PaperBought;
      entry, current, peak, trough := Some(price), Some(price), Some(price), Some(price);
      openedAt, status := Some(now), filled;
    }

    method SetStake(wait: int, size: real, fee: real)
      modifies this`delay, this`amount, this`feePaid
      ensures delay == wait && amount == Some(size) && feePaid == fee
    {
      delay, amount, feePaid := wait, Some(size), fee;
    }

    method Stake(s: Settings, impact: real)
      modifies this`delay, this`amount, this`feePaid, this`exitFee, this`pnl, this`costs
      ensures View() == Staked(old(View()), s, impact)
    {
      hide PartsOf, Sum, EntryCosts;
      var wait := if s.fillDelayTicks > 0 then s.fillDelayTicks else delay;
      SetStake(wait, s.tradeSize, Sum(PartsOf(s.tradeSize, s)));
      exitFee, pnl, costs := 0.0, Some(0.0), EntryCosts(costs, s, impact);
    }

    method DoBuy(s: Settings, bucket: nat, velocity: real, now: real)
      modifies this
      ensures View() == Buy(old(View()), s, bucket, velocity, now)
    {
      if FillFails(bucket, s) {
        fillFailed := true;
        status := Skipped;
      } else {
        hide Staked, Filled, EntryPrice, ImpactPct;
        var impact := ImpactPct(s, velocity);
        var price := EntryPrice(current, s, impact);
        Stake(s, impact);
        Fill(price, now);
      }
    }

    method SetMoves(move: real, held: int)
      modifies this`unrealized, this`highest, this`lowest, this`hold
      ensures unrealized == move && highest == Max(old(highest), move) && lowest == Min(old(lowest), move)
      ensures hold == held
    {
      var high, low := Max(highest, move), Min(lowest, move);
      unrealized, highest, lowest, hold := move, high, low, held;
    }

    method SetMark(move: real, held: int, fee: real, profit: real, spent: Costs)
      modifies this`unrealized, this`highest, this`lowest, this`hold, this`exitFee, this`pnl, this`costs
      ensures var p := old(View());
        View() == p.(unrealized := move, highest := Max(p.highest, move), lowest := Min(p.lowest, move),
                     hold := held, exitFee := fee, pnl := Some(profit), costs := spent)
    {
      hide Max, Min;
      SetMoves(move, held);
      exitFee, pnl, costs := fee, Some(profit), spent;
    }

    method MarkToMarket(s: Settings, now: real)
      requires Sane(View())
      modifies this`unrealized, this`highest, this`lowest, this`hold, this`exitFee, this`pnl, this`costs
      ensures View() == Mark(old(View()), s, now)
    {
      if entry == None || current == None {
        return;
      }
      hide Change, PartsOf, Sum, ExitCosts, ExitNotional, Or, Max, Min, NetOf, Profit, HoldSeconds;
      var move := Change(entry.value, current.value);
      var held := if openedAt.Some? then HoldSeconds(openedAt.value, now) else hold;
      var size := Or(amount, s.tradeSize);
      var parts := PartsOf(ExitNotional(size, entry.value, current.value), s);
      var profit := Profit(realized, NetOf(size, move, feePaid, Sum(parts)), remaining);
      SetMark(move, held, Sum(parts), profit, ExitCosts(costs, feePaid, parts));
    }

    method Stamp(reason: string, now: real)
      modifies this`status, this`exit, this`closedAt, this`exitReason, this`hold
      ensures status == PaperSold && exit == current && closedAt == Some(now) && exitReason == reason
      ensures hold == if openedAt.Some? then HoldSeconds(openedAt.value, now) else old(hold)
    {
      var held := if openedAt.Some? then HoldSeconds(openedAt.value, now) else hold;
      status, exit, closedAt, exitReason, hold := PaperSold, current, Some(now), reason, held;
    }

    method DoClose(s: Settings, reason: string, marked: real, closed: real)
      requires Sane(View())
      modifies this
      ensures View() == Close(old(View()), s, reason, marked, closed)
    {
      hide Mark, HoldSeconds;
      MarkToMarket(s, marked);
      Stamp(reason, closed);
    }

    method DoReprice(deltaPct: real)
      requires entry.Some?
      modifies this`status, this`ticks, this`current, this`peak, this`trough
      ensures View() == Reprice(old(View()), deltaPct)
    {
      hide NextPrice, Max, Min, Or;
      var price := NextPrice(current, entry.value, deltaPct);
      var high, low := Max(Or(peak, price), price), Min(Or(trough, price), price);
      status, ticks, current, peak, trough := Monitoring, ticks + 1, Some(price), Some(high), Some(low);
    }

    method FillPartial(s: Settings)
      modifies this`realized, this`remaining, this`partialTaken
      ensures View() == TakePartial(old(View()), s)
    {
      var fraction := Fraction(s);
      var share := Realize(realized, if pnl.Some? then pnl.value else 0.0, fraction);
      realized, remaining, partialTaken := share, Max(0.0, remaining - fraction), true;
    }

    method DoMark(q: Quote)
      requires Live(View()) && Sane(View())
      modifies this
      ensures View() == Marked(old(View()), q)
    {
      hide Mark, Reprice, TakePartial, TakesPartial;
      RepriceKeepsSane(View(), q.deltaPct);
      DoReprice(q.deltaPct);
      MarkKeepsSane(View(), q.s, q.marked);
      MarkToMarket(q.s, q.marked);
      if TakesPartial(View(), q.s) {
        FillPartial(q.s);
      }
    }

    method DoTick(q: Quote) returns (done: bool)
      requires Sane(View())
      modifies this
      ensures (View(), done) == Tick(old(View()), q)
    {
      if status.Buying? && delay > 0 {
        delay := delay - 1;
        if delay == 0 {
          status := PaperBought;
        }
        return false;
      }
      if (!status.PaperBought? && !status.Monitoring?) || entry == None {
        return false;
      }
      DoMark(q);
      if hold < q.s.minHold {
        return false;
      }
      var reason := ExitReason(View(), q.s, q.sellPressure, q.checked);
      if reason == None {
        return false;
      }
      DoClose(q.s, reason.value, q.remarked, q.closed);
      return true;
    }
  }

  // ---------- price paths ----------

  lemma TickKeepsSane(p: Position, q: Quote)
    requires Sane(p)
    ensures Sane(Tick(p, q).0) && Tick(p, q).0.entry == p.entry && Tick(p, q).0.openedAt == p.openedAt
  {
  }

  function Path(p: Position, qs: seq<Quote>): (r: Position)
    requires Sane(p)
    ensures Sane(r)
    decreases |qs|
  {
    if qs == [] then p else Path(Tick(p, qs[0]).0, qs[1..])
  }

  /** How many ticks of the path returned true. */
  function Closings(p: Position, qs: seq<Quote>): nat
    requires Sane(p)
    decreases |qs|
  {
    if qs == [] then 0 else (if Tick(p, qs[0]).1 then 1 else 0) + Closings(Tick(p, qs[0]).0, qs[1..])
  }

  predicate Settled(p: Position) {
    p.status.PaperSold? || p.status.Skipped?
  }

  /** A sold or skipped position never changes again. */
  lemma {:induction false} SettledStays(p: Position, qs: seq<Quote>)
    requires Sane(p) && Settled(p)
    ensures Path(p, qs) == p && Closings(p, qs) == 0
    decreases |qs|
  {
    if qs != [] {
      SettledStays(p, qs[1..]);
    }
  }

  /** A bought position: waiting for its fill, or live. */
  predicate Open(p: Position) {
    && p.entry.Some? && p.openedAt.Some? && Sane(p) && p.ticks >= 0
    && ((p.status.Buying? && p.delay > 0 && p.ticks == 0) || (Live(p) && p.delay <= 0))
  }

  /** On this tick the minimum hold time is over and the tick limit is at most `limit`. */
  predicate Due(openedAt: real, limit: nat, q: Quote) {
    HoldSeconds(openedAt, q.marked) >= q.s.minHold && q.s.maxTicks <= limit
  }

  /** The ticks an open position can still live through, if each of them is due. */
  function Lifetime(p: Position, limit: nat): nat {
    (if p.delay > 0 then p.delay else 0) + (if limit - p.ticks >= 1 then limit - p.ticks else 1)
  }

  lemma DueTick(p: Position, limit: nat, q: Quote)
    requires Open(p) && Due(p.openedAt.value, limit, q)
    ensures var (r, done) := Tick(p, q);
      if done then r.status.PaperSold?
      else Open(r) && r.openedAt == p.openedAt && Lifetime(r, limit) < Lifetime(p, limit)
  {
  }

  lemma {:induction false} DuePathCloses(p: Position, limit: nat, qs: seq<Quote>)
    requires Open(p) && (forall i :: 0 <= i < |qs| ==> Due(p.openedAt.value, limit, qs[i]))
    requires |qs| >= Lifetime(p, limit)
    ensures Path(p, qs).status.PaperSold? && Closings(p, qs) == 1
    decreases |qs|
  {
    hide Tick, Settled, Due;
    TickKeepsSane(p, qs[0]);
    var (r, done) := Tick(p, qs[0]);
    DueTick(p, limit, qs[0]);
    if done {
      SoldStays(r, qs[1..]);
    } else {
      DuePathCloses(r, limit, qs[1..]);
    }
  }

  lemma SoldStays(p: Position, qs: seq<Quote>)
    requires Sane(p) && p.status.PaperSold?
    ensures Path(p, qs) == p && Closings(p, qs) == 0
  {
    SettledStays(p, qs);
  }

  lemma {:induction false} PathSplit(p: Position, qs: seq<Quote>, n: nat)
    requires Sane(p) && n <= |qs|
    ensures Path(p, qs) == Path(Path(p, qs[..n]), qs[n..])
    decreases n
  {
    hide Tick;
    if n > 0 {
      TickKeepsSane(p, qs[0]);
      assert qs[..n][1..] == qs[1..][..n - 1] && qs[1..][n - 1..] == qs[n..];
      PathSplit(Tick(p, qs[0]).0, qs[1..], n - 1);
    } else {
      assert qs[0..] == qs;
    }
  }

  /** Every open position closes exactly once, within its lifetime, and then never changes. */
  lemma ClosesInTime(p: Position, limit: nat, qs: seq<Quote>)
    requires Open(p) && (forall i :: 0 <= i < |qs| ==> Due(p.openedAt.value, limit, qs[i]))
    requires |qs| >= Lifetime(p, limit)
    ensures Path(p, qs).status.PaperSold? && Closings(p, qs) == 1
    ensures Path(p, qs) == Path(p, qs[..Lifetime(p, limit)])
  {
    hide Tick, Lifetime, Due;
    var life := Lifetime(p, limit);
    DuePathCloses(p, limit, qs);
    DuePathCloses(p, limit, qs[..life]);
    PathSplit(p, qs, life);
    SoldStays(Path(p, qs[..life]), qs[life..]);
  }

  /** A token that no trade has touched yet. */
  predicate Untouched(p: Position) {
    !p.partialTaken && p.realized == 0.0 && p.remaining == 1.0 && p.ticks == 0 && p.delay == 0
  }

  /** The fill delay plus the tick limit, of which at least one tick is needed. */
  function TickBound(s: Settings, limit: nat): nat {
    (if s.fillDelayTicks > 0 then s.fillDelayTicks else 0) + (if limit >= 1 then limit else 1)
  }

  lemma BuyOpens(p: Position, s: Settings, bucket: nat, velocity: real, now: real, limit: nat)
    requires Untouched(p) && Sane(p)
    ensures var b := Buy(p, s, bucket, velocity, now);
      && Sane(b)
      && if FillFails(bucket, s) then Settled(b)
         else Open(b) && b.openedAt == Some(now) && Lifetime(b, limit) == TickBound(s, limit)
  {
    hide PartsOf, Sum, EntryCosts, FillFails;
  }

  /** With no minimum hold time, a filled buy is sold within its fill delay plus its tick
      limit (at least one tick), whatever the prices; a failed fill is never touched again. */
  lemma BoughtIsSold(p: Position, s: Settings, bucket: nat, velocity: real, now: real, limit: nat, qs: seq<Quote>)
    requires Untouched(p) && Sane(p)
    requires forall i :: 0 <= i < |qs| ==> qs[i].s.minHold <= 0 && qs[i].s.maxTicks <= limit
    ensures var b := Buy(p, s, bucket, velocity, now);
      && Sane(b)
      && (FillFails(bucket, s) ==> Path(b, qs) == b && Closings(b, qs) == 0)
      && (!FillFails(bucket, s) && |qs| >= TickBound(s, limit) ==>
            && Path(b, qs).status.PaperSold? && Closings(b, qs) == 1
            && Path(b, qs) == Path(b, qs[..TickBound(s, limit)]))
  {
    BuyOpens(p, s, bucket, velocity, now, limit);
    forall i | 0 <= i < |qs|
      ensures Due(now, limit, qs[i])
    {
    }
    hide Buy, Settled, Open, Due, Lifetime, TickBound, FillFails, Path, Closings;
    var b := Buy(p, s, bucket, velocity, now);
    if FillFails(bucket, s) {
      SettledStays(b, qs);
    } else if |qs| >= TickBound(s, limit) {
      ClosesInTime(b, limit, qs);
    }
  }

  /** The ticks that a bought position waits for its fill. */
  function WaitingTicks(s: Settings): nat {
    if s.fillDelayTicks > 0 then s.fillDelayTicks else 0
  }

  predicate NoHold(limit: int, qs: seq<Quote>) {
    forall i :: 0 <= i < |qs| ==> qs[i].s.minHold <= 0 && qs[i].s.maxTicks <= limit
  }

  lemma {:induction false} WaitingIsUnsold(p: Position, qs: seq<Quote>)
    requires Sane(p) && p.status.Buying? && |qs| <= p.delay
    ensures !Path(p, qs).status.PaperSold?
    decreases |qs|
  {
    if |qs| > 1 {
      WaitingIsUnsold(Tick(p, qs[0]).0, qs[1..]);
    }
  }

  /** The fill delay and the tick limit alone are enough ticks on every path exactly when the
      limit is positive; otherwise the path may end with the fill. */
  lemma LimitSufficesIff(p: Position, s: Settings, bucket: nat, velocity: real, now: real, limit: int)
    requires Untouched(p) && Sane(p) && !FillFails(bucket, s)
    ensures Sane(Buy(p, s, bucket, velocity, now))
    ensures (forall qs :: |qs| == WaitingTicks(s) + (if limit > 0 then limit else 0) && NoHold(limit, qs) ==>
              Path(Buy(p, s, bucket, velocity, now), qs).status.PaperSold?) <==> limit >= 1
  {
    BuyOpens(p, s, bucket, velocity, now, 0);
    hide Buy, Path, FillFails;
    var b := Buy(p, s, bucket, velocity, now);
    if limit >= 1 {
      forall qs | |qs| == WaitingTicks(s) + limit && NoHold(limit, qs)
        ensures Path(b, qs).status.PaperSold?
      {
        BoughtIsSold(p, s, bucket, velocity, now, limit, qs);
      }
    } else {
      FillIsUnsold(p, s, bucket, velocity, now, limit);
    }
  }

  /** The path that ends with the fill. */
  function FillPath(s: Settings, now: real, limit: int): seq<Quote> {
    seq(WaitingTicks(s), _ => Quote(s.(minHold := 0, maxTicks := limit), 0.0, 0.0, now, now, now, now))
  }

  lemma FillIsUnsold(p: Position, s: Settings, bucket: nat, velocity: real, now: real, limit: int)
    requires Untouched(p) && Sane(p) && !FillFails(bucket, s) && Sane(Buy(p, s, bucket, velocity, now))
    ensures var qs := FillPath(s, now, limit);
      |qs| == WaitingTicks(s) && NoHold(limit, qs) && !Path(Buy(p, s, bucket, velocity, now), qs).status.PaperSold?
  {
    hide EntryPrice, EntryCosts, Tick;
    if WaitingTicks(s) > 0 {
      WaitingIsUnsold(Buy(p, s, bucket, velocity, now), FillPath(s, now, limit));
    }
  }

  /** A limit of the settings that a marked position has reached, in no particular order. */
  predicate LimitReached(p: Position, s: Settings, sellPressure: real, now: real)
    requires p.entry.Some? && p.current.Some? && p.entry.value != 0.0
  {
    var move := MovePct(p);
    || !(-s.stopLossPct < move < s.takeProfitPct)
    || (s.trailingEnabled && p.highest >= s.partialPct && p.highest - move >= s.trailingPct)
    || (s.breakEvenEnabled && p.highest >= s.breakEvenAfterPct && move <= 0.0)
    || (s.stalledEnabled && p.hold >= s.stalledSeconds && move <= s.stalledMovePct && -move <= s.stalledMovePct)
    || (s.sellPressureEnabled && sellPressure >= s.sellPressureLimit)
    || (p.openedAt.Some? && now - p.openedAt.value >= s.maxHold as real)
    || p.ticks >= s.maxTicks
  }

  /** A live tick closes the position exactly when it has been held long enough and some
      limit is reached; the one limit that outranks all others is the take profit. */
  lemma ClosesIffLimitReached(p: Position, q: Quote)
    requires Sane(p) && Live(p)
    ensures var (m, done) := (Marked(p, q), Tick(p, q).1);
      && (done <==> m.hold >= q.s.minHold && LimitReached(m, q.s, q.sellPressure, q.checked))
      && (done && MovePct(m) >= q.s.takeProfitPct ==> Tick(p, q).0.exitReason == "take profit")
      && (!done ==> Tick(p, q).0 == m)
  {
    hide Marked, MovePct, Mark;
  }

  // ---------- profit and loss ----------

  /** The share of the profit that is realised is the net value of the part that is sold. */
  predicate ShareIsSold(f: real, realized: real, net: real, remaining: real) {
    f * Profit(realized, net, remaining) == net * Min(f, Max(0.0, remaining))
  }

  /** Nothing is sold, or the earlier realised part is balanced. */
  predicate EarlierIsBalanced(f: real, realized: real, net: real, remaining: real) {
    f * (realized + net * (remaining - 1.0)) == 0.0
  }

  /** The profit after the partial fill, marked again at the same net value. */
  function ProfitAfter(f: real, realized: real, net: real, remaining: real): real {
    Profit(Realize(realized, Profit(realized, net, remaining), f), net, Max(0.0, remaining - f))
  }

  /** Re-marking at the same price after the partial fill leaves the profit unchanged exactly
      when the realised share is what is sold; if that much remains, exactly when nothing
      is sold or the earlier realised part is balanced. */
  lemma PartialIsNeutralIff(p: Position, s: Settings, now: real)
    requires Sane(p) && p.entry.Some? && p.current.Some?
    ensures var before, f, net := Mark(p, s, now), Fraction(s), Net(p, s);
      var neutral := Mark(TakePartial(before, s), s, now).pnl == before.pnl;
      && (neutral <==> ShareIsSold(f, p.realized, net, p.remaining))
      && (f <= p.remaining ==> (neutral <==> EarlierIsBalanced(f, p.realized, net, p.remaining)))
  {
    ProfitAroundPartial(p, s, now);
    hide *;
    NeutralArithmetic(Fraction(s), p.realized, Net(p, s), p.remaining);
  }

  lemma ProfitAroundPartial(p: Position, s: Settings, now: real)
    requires Sane(p) && p.entry.Some? && p.current.Some?
    ensures var before, f, net := Mark(p, s, now), Fraction(s), Net(p, s);
      && before.pnl == Some(Profit(p.realized, net, p.remaining))
      && Mark(TakePartial(before, s), s, now).pnl == Some(ProfitAfter(f, p.realized, net, p.remaining))
  {
    NetIsStable(p, s, now);
    MarkKeepsPrices(p, s, now);
    NetIsStable(TakePartial(Mark(p, s, now), s), s, now);
    hide Fraction, Net, Mark, Profit, Realize, Max;
  }

  lemma MarkKeepsPrices(p: Position, s: Settings, now: real)
    requires Sane(p)
    ensures Mark(p, s, now).entry == p.entry && Mark(p, s, now).current == p.current
  {
  }

  lemma NeutralArithmetic(f: real, r: real, net: real, remaining: real)
    requires f >= 0.0
    ensures ProfitAfter(f, r, net, remaining) == Profit(r, net, remaining) <==> ShareIsSold(f, r, net, remaining)
    ensures f <= remaining ==> (ShareIsSold(f, r, net, remaining) <==> EarlierIsBalanced(f, r, net, remaining))
  {
    var open, left := Max(0.0, remaining), Max(0.0, remaining - f);
    assert open - left == Min(f, open) && Max(0.0, left) == left;
    NeutralDifference(net, open, left);
    if f <= remaining {
      NeutralSum(f, r, net, remaining);
    }
  }

  lemma NeutralDifference(net: real, open: real, left: real)
    ensures net * open - net * left == net * (open - left)
  {
  }

  lemma NeutralSum(f: real, r: real, net: real, m: real)
    ensures (r + (r + net * m) * f) + net * (m - f) - (r + net * m) == f * (r + net * (m - 1.0))
  {
    assert net * (m - f) == net * m - net * f;
    assert f * (r + net * (m - 1.0)) == f * r + f * (net * (m - 1.0));
    assert net * (m - 1.0) == net * m - net;
    assert f * (net * m - net) == f * (net * m) - f * net;
  }

  /** A position beside the facts of its partial fill and of its close. */
  datatype Track = Track(p: Position, fraction: real, netAtPartial: real, netAtClose: real)

  function TrackTick(t: Track, q: Quote): Track
    requires Sane(t.p)
  {
    var (r, done) := Tick(t.p, q);
    if !Live(t.p) then t.(p := r)
    else
      var net := Net(Mark(Reprice(t.p, q.deltaPct), q.s, q.marked), q.s);
      var u := if r.partialTaken && !t.p.partialTaken then t.(fraction := Fraction(q.s), netAtPartial := net) else t;
      u.(p := r, netAtClose := if done then net else t.netAtClose)
  }

  function TrackPath(t: Track, qs: seq<Quote>): (u: Track)
    requires Sane(t.p)
    ensures u.p == Path(t.p, qs)
    decreases |qs|
  {
    if qs == [] then t else TrackPath(TrackTick(t, qs[0]), qs[1..])
  }

  /** What the partial fill has left behind: nothing before it, its share after it. */
  ghost predicate Books(p: Position, fraction: real, netAtPartial: real) {
    && 0.0 <= fraction <= 1.0
    && (if p.partialTaken then p.remaining == 1.0 - fraction && p.realized == fraction * netAtPartial
        else fraction == 0.0 && p.remaining == 1.0 && p.realized == 0.0)
  }

  /** The partial's share of its net value and the rest of the net value at the close. */
  function Blend(fraction: real, netAtPartial: real, netAtClose: real): real {
    fraction * netAtPartial + (1.0 - fraction) * netAtClose
  }

  ghost predicate Accounted(t: Track) {
    && Books(t.p, t.fraction, t.netAtPartial)
    && (t.p.status.PaperSold? ==> t.p.pnl == Some(Blend(t.fraction, t.netAtPartial, t.netAtClose)))
  }

  /** Neither marking nor the partial fill changes the net value. */
  lemma NetIsStable(p: Position, s: Settings, now: real)
    requires p.entry.Some? && p.current.Some? && p.entry.value != 0.0
    ensures var m := Mark(p, s, now);
      && Net(m, s) == Net(p, s) && Net(TakePartial(m, s), s) == Net(p, s)
      && m.realized == p.realized && m.remaining == p.remaining && m.partialTaken == p.partialTaken
      && m.pnl == Some(Profit(p.realized, Net(p, s), p.remaining))
  {
    hide NetOf, Change, PartsOf, Sum, ExitCosts, ExitNotional, Profit;
  }

  lemma PartialShares(m: Position, s: Settings, net: real)
    requires !m.partialTaken && m.remaining == 1.0 && m.realized == 0.0 && m.pnl == Some(Profit(0.0, net, 1.0))
    ensures var r := TakePartial(m, s);
      r.remaining == 1.0 - Fraction(s) && r.realized == Fraction(s) * net
  {
  }

  /** A live tick keeps the marked position's books, and a close prices what is open. */
  lemma TickOutcome(p: Position, q: Quote)
    requires Sane(p) && Live(p)
    ensures var (r, done) := Tick(p, q);
      var n := Marked(p, q);
      && r.realized == n.realized && r.remaining == n.remaining && r.partialTaken == n.partialTaken
      && (r.status.PaperSold? <==> done)
      && (done ==> r.pnl == Some(Profit(n.realized, Net(n, q.s), n.remaining)))
  {
    var n := Marked(p, q);
    NetIsStable(n, q.s, q.remarked);
    hide Mark, ExitReason, NextPrice, Net, TakesPartial, HoldSeconds;
  }

  /** What the marked position of a live tick has realised and what remains of it. */
  lemma MarkedBooks(p: Position, q: Quote)
    requires Sane(p) && Live(p)
    ensures var n, net := Marked(p, q), Net(Reprice(p, q.deltaPct), q.s);
      && Net(n, q.s) == net && Net(Mark(Reprice(p, q.deltaPct), q.s, q.marked), q.s) == net
      && (n.partialTaken == p.partialTaken ==> n.realized == p.realized && n.remaining == p.remaining)
      && (n.partialTaken != p.partialTaken && p.realized == 0.0 && p.remaining == 1.0 ==>
            !p.partialTaken && n.remaining == 1.0 - Fraction(q.s) && n.realized == Fraction(q.s) * net)
  {
    var priced := Reprice(p, q.deltaPct);
    var m := Mark(priced, q.s, q.marked);
    NetIsStable(priced, q.s, q.marked);
    if TakesPartial(m, q.s) && p.realized == 0.0 && p.remaining == 1.0 {
      PartialShares(m, q.s, Net(priced, q.s));
    }
  }

  lemma BooksBlend(p: Position, fraction: real, netAtPartial: real, net: real)
    requires Books(p, fraction, netAtPartial)
    ensures Profit(p.realized, net, p.remaining) == Blend(fraction, netAtPartial, net)
  {
  }

  lemma TrackedNet(t: Track, q: Quote)
    requires Sane(t.p) && Live(t.p)
    ensures var u, net := TrackTick(t, q), Net(Reprice(t.p, q.deltaPct), q.s);
      && u.p == Tick(t.p, q).0
      && (if u.p.partialTaken && !t.p.partialTaken then u.fraction == Fraction(q.s) && u.netAtPartial == net
          else u.fraction == t.fraction && u.netAtPartial == t.netAtPartial)
  {
    MarkedBooks(t.p, q);
    hide Tick, Marked, Net, Mark, Reprice, Profit, Fraction;
  }

  lemma ShareIsBooked(t: Track, q: Quote, u: Track, net: real)
    requires Books(t.p, t.fraction, t.netAtPartial)
    requires if u.p.partialTaken && !t.p.partialTaken then u.fraction == Fraction(q.s) && u.netAtPartial == net
             else u.fraction == t.fraction && u.netAtPartial == t.netAtPartial
    requires u.p.partialTaken == t.p.partialTaken ==> u.p.realized == t.p.realized && u.p.remaining == t.p.remaining
    requires u.p.partialTaken != t.p.partialTaken && t.p.realized == 0.0 && t.p.remaining == 1.0 ==>
      !t.p.partialTaken && u.p.remaining == 1.0 - Fraction(q.s) && u.p.realized == Fraction(q.s) * net
    requires t.p.partialTaken ==> u.p.partialTaken
    ensures Books(u.p, u.fraction, u.netAtPartial)
  {
  }

  lemma LiveTickBooks(t: Track, q: Quote)
    requires Sane(t.p) && Live(t.p) && Books(t.p, t.fraction, t.netAtPartial)
    ensures var u := TrackTick(t, q); Books(u.p, u.fraction, u.netAtPartial)
  {
    TickOutcome(t.p, q);
    MarkedBooks(t.p, q);
    TrackedNet(t, q);
    hide *;
    ShareIsBooked(t, q, TrackTick(t, q), Net(Reprice(t.p, q.deltaPct), q.s));
  }

  lemma LiveTickAccounted(t: Track, q: Quote)
    requires Sane(t.p) && Live(t.p) && Accounted(t)
    ensures Accounted(TrackTick(t, q))
  {
    LiveTickBooks(t, q);
    TickOutcome(t.p, q);
    MarkedBooks(t.p, q);
    var u := TrackTick(t, q);
    hide Tick, Marked, Net, Mark, Reprice, Profit, Books, Blend;
    BooksBlend(u.p, u.fraction, u.netAtPartial, Net(Marked(t.p, q), q.s));
  }

  lemma {:induction false} PathAccounted(t: Track, qs: seq<Quote>)
    requires Sane(t.p) && Accounted(t)
    ensures Accounted(TrackPath(t, qs))
    decreases |qs|
  {
    hide Accounted;
    if qs != [] {
      if Live(t.p) {
        LiveTickAccounted(t, qs[0]);
      } else {
        DeadTickAccounted(t, qs[0]);
      }
      PathAccounted(TrackTick(t, qs[0]), qs[1..]);
    }
  }

  lemma DeadTickAccounted(t: Track, q: Quote)
    requires Sane(t.p) && !Live(t.p) && Accounted(t)
    ensures Accounted(TrackTick(t, q))
  {
  }

  /** Over any price path, and whatever the settings of each tick, the final profit of a
      bought position is `f` times its net value at the partial fill plus `1 - f` times its
      net value at the close, with `f` zero if no partial fill happened. */
  lemma PartialPreservesValue(p: Position, s: Settings, bucket: nat, velocity: real, now: real, qs: seq<Quote>)
    requires Untouched(p) && Sane(p) && !FillFails(bucket, s)
    ensures var t := TrackPath(Track(Buy(p, s, bucket, velocity, now), 0.0, 0.0, 0.0), qs);
      && t.p == Path(Buy(p, s, bucket, velocity, now), qs)
      && 0.0 <= t.fraction <= 1.0 && (!t.p.partialTaken ==> t.fraction == 0.0)
      && (t.p.status.PaperSold? ==>
            t.p.pnl == Some(Blend(t.fraction, t.netAtPartial, t.netAtClose)))
  {
    PathAccounted(Track(Buy(p, s, bucket, velocity, now), 0.0, 0.0, 0.0), qs);
  }

  /** So on every run the partial fill preserves the profit: whatever the path from a buy, the
      tick that takes it leaves the profit unchanged when the position is marked again. */
  lemma PartialIsNeutralOnRuns(p: Position, s: Settings, bucket: nat, velocity: real, now: real,
                               qs: seq<Quote>, q: Quote)
    requires Untouched(p) && Sane(p) && !FillFails(bucket, s)
    ensures Sane(Buy(p, s, bucket, velocity, now))
    ensures var t := Path(Buy(p, s, bucket, velocity, now), qs);
      Live(t) ==>
        var m := Mark(Reprice(t, q.deltaPct), q.s, q.marked);
        TakesPartial(m, q.s) ==> Mark(TakePartial(m, q.s), q.s, q.marked).pnl == m.pnl
  {
    BuyOpens(p, s, bucket, velocity, now, 0);
    var b := Buy(p, s, bucket, velocity, now);
    var t := Path(b, qs);
    PathAccounted(Track(b, 0.0, 0.0, 0.0), qs);
    if Live(t) {
      FirstPartialIsNeutral(t, q);
    }
  }

  lemma FirstPartialIsNeutral(t: Position, q: Quote)
    requires Sane(t) && Live(t) && (!t.partialTaken ==> t.realized == 0.0 && t.remaining == 1.0)
    ensures var m := Mark(Reprice(t, q.deltaPct), q.s, q.marked);
      TakesPartial(m, q.s) ==> Mark(TakePartial(m, q.s), q.s, q.marked).pnl == m.pnl
  {
    var r := Reprice(t, q.deltaPct);
    hide NextPrice;
    PartialIsNeutralIff(r, q.s, q.marked);
  }

  // ---------- the fees add up ----------

  /** Each fee is the sum of its parts, and the total is the fee paid and the fee of a sell now. */
  predicate Balanced(p: Position) {
    && p.feePaid == Sum(p.costs.entry) && p.costs.fees == p.feePaid + p.exitFee
    && (p.exitFee == 0.0 || p.exitFee == Sum(p.costs.exit))
  }

  lemma MarkBalances(p: Position, s: Settings, now: real)
    requires Sane(p) && Balanced(p)
    ensures Balanced(Mark(p, s, now))
  {
    hide Sum, PartsOf, Net, MovePct, Profit, HoldSeconds;
  }

  lemma TickBalances(p: Position, q: Quote)
    requires Sane(p) && Balanced(p)
    ensures Balanced(Tick(p, q).0)
  {
    if Live(p) {
      RepriceKeepsSane(p, q.deltaPct);
      MarkKeepsSane(Reprice(p, q.deltaPct), q.s, q.marked);
      MarkBalances(Reprice(p, q.deltaPct), q.s, q.marked);
      MarkBalances(Marked(p, q), q.s, q.remarked);
      hide Mark, Sum, ExitReason, TakesPartial, NextPrice;
    }
  }

  lemma {:induction false} PathBalances(p: Position, qs: seq<Quote>)
    requires Sane(p) && Balanced(p)
    ensures Balanced(Path(p, qs))
    decreases |qs|
  {
    hide Tick, Balanced;
    if qs != [] {
      TickKeepsSane(p, qs[0]);
      TickBalances(p, qs[0]);
      PathBalances(Tick(p, qs[0]).0, qs[1..]);
    }
  }

  /** Over any path from a buy, the recorded parts of both fees and their total add up. */
  lemma FeesAddUp(p: Position, s: Settings, bucket: nat, velocity: real, now: real, qs: seq<Quote>)
    requires Untouched(p) && Sane(p) && !FillFails(bucket, s)
    ensures Sane(Buy(p, s, bucket, velocity, now)) && Balanced(Path(Buy(p, s, bucket, velocity, now), qs))
  {
    BuyOpens(p, s, bucket, velocity, now, 0);
    BuyBalances(p, s, bucket, velocity, now);
    PathBalances(Buy(p, s, bucket, velocity, now), qs);
  }

  lemma BuyBalances(p: Position, s: Settings, bucket: nat, velocity: real, now: real)
    requires !FillFails(bucket, s)
    ensures Balanced(Buy(p, s, bucket, velocity, now))
  {
    hide Sum, PartsOf, EntryPrice, FillFails, ImpactPct;
  }
}
