/** The two gates of `PilotRisk` condition by condition, and the figures that the entry gate is
    shown, written out on the outcomes recorded. */
module PilotRiskLaws {
  import opened Common
  import opened Options
  import opened PilotRisk

  // ---------- the cost cap ----------

  /** The cost cap is the largest whole number of ten-thousandths that is worth at most 25 cents and
      is at most a twentieth of the amount. */
  lemma CostCapIsLargest(p: Policy, requested: real, k: int) returns (n: nat)
    requires p.price > 0.0 && requested >= 0.0
    ensures var cap, other := CostCapFor(p, requested), k as real / 10000.0;
      && cap == n as real / 10000.0 && Worth(cap, p.price) <= 0.25 && cap <= requested * 0.05
      && (Worth(other, p.price) <= 0.25 && other <= requested * 0.05 ==> other <= cap)
  {
    CostIsCapped(p, requested);
    var q := Sol(0.25, p.price);
    WorthOfSol(0.25, p.price);
    var bound := Min(q, requested * 0.05);
    DownIsLargest(bound, k);
    DownOfPositive(bound);
    n := (bound * 10000.0).Floor;
    WithinDollars(k as real / 10000.0, q, p.price);
    hide Down, Sol, Worth;
  }

  lemma WithinDollars(x: real, q: real, price: real)
    requires price > 0.0
    ensures Worth(x, price) <= Worth(q, price) ==> x <= q
  {
    if x > q {
      WorthOrders(q, x, price);
    }
  }

  // ---------- why there is no policy ----------

  /** Each error of a policy's creation, exactly when it is given: the first condition that fails names it. */
  lemma CreationFails(price: real, equity: real, zoned: bool, slippage: real)
    ensures var r, positive := Create(price, equity, zoned, slippage), price > 0.0 && equity > 0.0;
      && (r == Err(NotPositive) <==> !positive)
      && (r == Err(NaiveTimestamp) <==> positive && !zoned)
      && (r == Err(FundingTooHigh) <==> positive && zoned && equity * price > 100.0)
      && (r == Err(SlippageOutOfRange) <==>
            positive && zoned && equity * price <= 100.0 && !(0.0 < slippage <= 5.0))
  {
    assert Worth(equity, price) == equity * price;
    hide Down, Worth, Sol;
  }

  // ---------- the gates ----------

  /** The amounts of the cost and of the slippage are within their caps. */
  predicate IsCheap(p: Policy, r: Request)
    requires p.price > 0.0
  {
    0.0 <= r.cost <= CostCapFor(p, r.requested)
  }

  /** The reasons of a buy's refusal, each if and only if its condition holds: first what is asked for
      and what has been lost, then the terms and the state of the pilot. */
  lemma EntryIsDecided(p: Policy, r: Request, s: RiskState, d: Decision)
    requires p.price > 0.0 && Decides(d, EntryGate(s), p, r)
    ensures WrongAction in d.blockers <==> r.action != "buy"
    ensures BadAmount in d.blockers <==> !(0.0 < r.requested <= p.maxTrade)
    ensures OnePosition in d.blockers <==> s.openPositions >= p.maxOpen
    ensures SessionStop in d.blockers <==> s.sessionPnl + p.sessionStop <= 0.0
    ensures DailyStop in d.blockers <==> s.dailyPnl + p.dailyStop <= 0.0
    ensures CumulativeFreeze in d.blockers <==> s.cumulativeLoss >= p.freeze
    ensures ConsecutiveStop in d.blockers <==> s.consecutiveLosses >= p.lossStop
  {
    hide CostCapFor;
    assert forall x :: x in d.blockers <==> RefusesEntry(x, p, r, s);
    hide Decides, Allows, Refuses;
  }

  lemma EntryTermsAreDecided(p: Policy, r: Request, s: RiskState, d: Decision)
    requires p.price > 0.0 && Decides(d, EntryGate(s), p, r)
    ensures Unavailable in d.blockers <==> s.unavailable
    ensures SlippageCap in d.blockers <==> !(0.0 <= r.slippage <= p.slippage)
    ensures CostCap in d.blockers <==> !IsCheap(p, r)
    ensures Stopped in d.blockers <==> s.stopped
    ensures Restart in d.blockers <==> s.restart
    ensures Replenished in d.blockers <==> s.replenished
    ensures CapIncrease in d.blockers <==> s.capIncrease
    ensures !d.needsRecovery
  {
    hide CostCapFor;
    assert forall x :: x in d.blockers <==> RefusesEntry(x, p, r, s);
    assert !d.needsRecovery;
    hide Decides, Allows, Refuses;
  }

  /** A buy goes through exactly if it is a buy of an admissible amount, slippage and cost, with no
      position open, no stop reached, and nothing asked that the pilot may not do. */
  lemma EntryIsAllowedIff(p: Policy, r: Request, s: RiskState, d: Decision)
    requires p.price > 0.0 && Decides(d, EntryGate(s), p, r)
    ensures d.allowed <==>
      && r.action == "buy" && 0.0 < r.requested <= p.maxTrade
      && 0.0 <= r.slippage <= p.slippage && IsCheap(p, r)
      && s.openPositions < p.maxOpen
      && s.sessionPnl > -p.sessionStop && s.dailyPnl > -p.dailyStop && s.cumulativeLoss < p.freeze
      && s.consecutiveLosses < p.lossStop
      && !s.unavailable && !s.stopped && !s.restart && !s.replenished && !s.capIncrease
  {
    hide CostCapFor;
    AllowsEach(EntryGate(s), p, r);
  }

  /** Allowing means refusing for none of the fourteen reasons. */
  lemma AllowsEach(g: Gate, p: Policy, r: Request)
    requires p.price > 0.0
    ensures Allows(g, p, r) <==>
      && !Refuses(g, WrongAction, p, r) && !Refuses(g, BadAmount, p, r) && !Refuses(g, OnePosition, p, r)
      && !Refuses(g, SessionStop, p, r) && !Refuses(g, DailyStop, p, r) && !Refuses(g, CumulativeFreeze, p, r)
      && !Refuses(g, ConsecutiveStop, p, r) && !Refuses(g, Unavailable, p, r) && !Refuses(g, SlippageCap, p, r)
      && !Refuses(g, CostCap, p, r) && !Refuses(g, Stopped, p, r) && !Refuses(g, Restart, p, r)
      && !Refuses(g, Replenished, p, r) && !Refuses(g, CapIncrease, p, r)
  {
    hide Refuses;
    if b :| Refuses(g, b, p, r) {
      match b
      case WrongAction =>
      case BadAmount =>
      case OnePosition =>
      case SessionStop =>
      case DailyStop =>
      case CumulativeFreeze =>
      case ConsecutiveStop =>
      case Unavailable =>
      case SlippageCap =>
      case CostCap =>
      case Stopped =>
      case Restart =>
      case Replenished =>
      case CapIncrease =>
    }
  }

  /** A sell goes through exactly if it is a sell of a positive amount within the caps of slippage and
      cost; no stop and no state of the pilot can refuse it.  A refused one needs a recovery decision
      exactly if it was to protect. */
  lemma ExitIsDecided(p: Policy, r: Request, d: Decision)
    requires p.price > 0.0 && Decides(d, ExitGate, p, r)
    ensures WrongAction in d.blockers <==> r.action != "sell"
    ensures BadAmount in d.blockers <==> !(r.requested > 0.0)
    ensures SlippageCap in d.blockers <==> !(0.0 <= r.slippage <= p.slippage)
    ensures CostCap in d.blockers <==> !IsCheap(p, r)
    ensures forall b :: b in d.blockers ==> b in {WrongAction, BadAmount, SlippageCap, CostCap}
    ensures d.allowed <==>
      r.action == "sell" && r.requested > 0.0 && 0.0 <= r.slippage <= p.slippage && IsCheap(p, r)
    ensures d.needsRecovery <==> r.protective && !d.allowed
  {
    hide CostCapFor;
    AllowsEach(ExitGate, p, r);
  }

  /** The reasons are listed in the order of the checks. */
  lemma ReasonsAreInOrder(i: nat)
    requires i < 14
    ensures Rank([WrongAction, BadAmount, OnePosition, SessionStop, DailyStop, CumulativeFreeze, ConsecutiveStop,
                  Unavailable, SlippageCap, CostCap, Stopped, Restart, Replenished, CapIncrease][i]) == i
  {
  }

  // ---------- what the entry gate is shown ----------

  /** Sums over the outcomes, first to last: of the profits in a window or in all of them, of those from
      a day on, and of the losses alone. */
  function SumInWindow(l: Ledger, window: Option<nat>): real {
    if l == [] then 0.0
    else (if window == None || window == Some(l[0].window) then l[0].pnl else 0.0) + SumInWindow(l[1..], window)
  }

  function SumFrom(l: Ledger, day: int): real {
    if l == [] then 0.0 else (if day <= l[0].day then l[0].pnl else 0.0) + SumFrom(l[1..], day)
  }

  function SumOfLosses(l: Ledger): real {
    if l == [] then 0.0 else (if l[0].pnl >= 0.0 then 0.0 else -l[0].pnl) + SumOfLosses(l[1..])
  }

  /** The last `n` outcomes are losses, and the one before them, if any, is not. */
  predicate EndsInLosses(l: Ledger, n: nat) {
    n <= |l| && (forall i :: |l| - n <= i < |l| ==> l[i].pnl < 0.0) && (n < |l| ==> l[|l| - n - 1].pnl >= 0.0)
  }

  lemma {:induction false} SumsSnoc(l: Ledger, o: Outcome, window: Option<nat>, day: int)
    ensures SumInWindow(l + [o], window)
         == SumInWindow(l, window) + if window == None || window == Some(o.window) then o.pnl else 0.0
    ensures SumFrom(l + [o], day) == SumFrom(l, day) + if day <= o.day then o.pnl else 0.0
    ensures SumOfLosses(l + [o]) == SumOfLosses(l) + if o.pnl >= 0.0 then 0.0 else -o.pnl
  {
    if l == [] {
      assert [] + [o] == [o];
    } else {
      assert (l + [o])[1..] == l[1..] + [o];
      SumsSnoc(l[1..], o, window, day);
    }
  }

  lemma {:induction false} LedgerSums(l: Ledger, window: Option<nat>, day: int)
    ensures Pnl(l, InSession(window)) == SumInWindow(l, window) && Pnl(l, Since(day)) == SumFrom(l, day)
    ensures CumulativeLoss(l) == SumOfLosses(l) && EndsInLosses(l, LossStreak(l))
    decreases |l|
  {
    if l != [] {
      var init, o := l[..|l| - 1], l[|l| - 1];
      assert l == init + [o];
      LedgerSums(init, window, day);
      SumsSnoc(init, o, window, day);
    }
  }

  /** The state of a campaign that the gate is shown: whether a position is open; the profits of the
      active window, or of all of them without one, and those since the day began, each with the
      mark of the open position; all losses; and how many of the last outcomes were losses. */
  lemma StateIsOfTheLedger(c: Campaign, active: Option<nat>, today: int, x: Context)
    ensures var s, mark := StateOf(c, active, today, x), if c.open == None then 0.0 else x.unrealized;
      && s.openPositions == (if c.open == None then 0 else 1)
      && s.sessionPnl == SumInWindow(c.ledger, active) + mark
      && s.dailyPnl == SumFrom(c.ledger, today) + mark
      && s.cumulativeLoss == SumOfLosses(c.ledger)
      && s.consecutiveLosses >= 0 && EndsInLosses(c.ledger, s.consecutiveLosses)
      && s.unavailable == x.unavailable && s.stopped == x.stopped
      && !s.restart && !s.replenished && !s.capIncrease
  {
    LedgerSums(c.ledger, active, today);
  }

  /** What an attempt leaves behind: the day and the window it was made in; an allowed buy opens the
      position it asked for, an allowed sell of an open position records its outcome and closes
      it, and anything else leaves ledger and position alone. */
  lemma AttemptMeans(p: Policy, c: Campaign, e: Event)
    requires p.price > 0.0
    ensures var after := Step(p, c, e);
      && after.day == e.today
      && (e.Buy? ==>
            && after.window == (if e.active.Some? then e.active.value else c.window) && after.ledger == c.ledger
            && after.open == if Allows(EntryGate(StateOf(c, e.active, e.today, e.context)), p, e.request)
                             then Some(Position(e.request.requested, e.request.cost, e.active, e.today)) else c.open)
      && (e.Sell? ==>
            && after.window == e.window
            && if c.open.Some? && Allows(ExitGate, p, e.request)
               then after.open == None && after.ledger == c.ledger + [Outcome(e.window, e.today, e.pnl)]
               else after.open == c.open && after.ledger == c.ledger)
  {
    hide Allows;
  }
}
