/** How far the freeze of the pilot can be passed, and exactly when it cannot. */
module PilotStops {
  import opened Common
  import opened Options
  import opened PilotRisk

  // ---------- the freeze and one position ----------

  lemma DownIsMonotone(x: real, y: real)
    requires 0.0 <= x <= y
    ensures Down(x) <= Down(y)
  {
    var n := (x * 10000.0).Floor;
    DownOfPositive(x);
    hide Down;
    DownIsLargest(y, n);
  }

  /** The highest cost that the gate allows for any sell. */
  function ExitCost(p: Policy): real
    requires p.price > 0.0
  {
    Down(Sol(0.25, p.price))
  }

  lemma ExitCostIsHighest(p: Policy, requested: real)
    requires p.price > 0.0 && requested >= 0.0
    ensures CostCapFor(p, requested) <= ExitCost(p)
    ensures requested * 0.05 == Sol(0.25, p.price) ==> CostCapFor(p, requested) == ExitCost(p)
    ensures ExitCost(p) >= 0.0
  {
    hide Down, Sol;
    var q := Sol(0.25, p.price);
    WorthOfSol(0.25, p.price);
    DownIsMonotone(Min(q, requested * 0.05), q);
    DownIsLargest(q, 0);
  }

  /** A loss is all of what a position can lose. */
  function WorstLoss(p: Policy, o: Position): real
    requires p.price > 0.0
  {
    o.stake + o.cost + ExitCost(p)
  }

  /** Every sell that the gate allows leaves the cumulative loss within the freeze. */
  ghost predicate SellsKeepFreeze(p: Policy, c: Campaign)
    requires p.price > 0.0
  {
    forall e: Event :: e.Sell? && Possible(c, e) && Allows(ExitGate, p, e.request) ==>
      CumulativeLoss(Step(p, c, e).ledger) <= p.freeze
  }

  lemma SellLosesAtMost(p: Policy, c: Campaign, e: Event)
    requires Capped(p) && c.open.Some? && Gated(p, c.ledger, c.open.value)
    requires e.Sell? && Possible(c, e) && Allows(ExitGate, p, e.request)
    ensures CumulativeLoss(Step(p, c, e).ledger) <= CumulativeLoss(c.ledger) + WorstLoss(p, c.open.value)
  {
    hide CumulativeLoss, LossStreak, Pnl, CostCapFor, ExitCost;
    var r := e.request;
    assert !Refuses(ExitGate, BadAmount, p, r) && !Refuses(ExitGate, CostCap, p, r);
    ExitCostIsHighest(p, r.requested);
    LedgerSnoc(c.ledger, Outcome(e.window, e.today, e.pnl), OnDay(e.today));
  }

  /** A window after all others. */
  function NextWindow(l: Ledger, w: nat): (r: nat)
    ensures r >= w && forall o :: o in l ==> o.window < r
  {
    if l == [] then w
    else
      var init, last := l[..|l| - 1], l[|l| - 1];
      var r := NextWindow(init, w);
      assert l == init + [last];
      if last.window < r then r else last.window + 1
  }

  /** The most expensive sell that the gate allows, at a total loss. */
  function WorstSell(p: Policy, c: Campaign): Event
    requires p.price > 0.0 && c.open.Some?
  {
    var r := Request("sell", Sol(0.25, p.price) * 20.0, 0.0, ExitCost(p), false);
    Sell(r, NextWindow(c.ledger, c.window), c.day, -WorstLoss(p, c.open.value))
  }

  lemma WorstSellIsAllowed(p: Policy, c: Campaign)
    requires Capped(p) && c.open.Some? && Gated(p, c.ledger, c.open.value)
    ensures var e := WorstSell(p, c);
      && Possible(c, e) && Allows(ExitGate, p, e.request)
      && CumulativeLoss(Step(p, c, e).ledger) == CumulativeLoss(c.ledger) + WorstLoss(p, c.open.value)
  {
    hide CumulativeLoss, LossStreak, Pnl, CostCapFor, ExitCost, Sol;
    var e := WorstSell(p, c);
    WorthOfSol(0.25, p.price);
    ExitCostIsHighest(p, e.request.requested);
    LedgerSnoc(c.ledger, Outcome(e.window, e.today, e.pnl), OnDay(e.today));
  }

  /** For an open position the freeze is a cap exactly when the loss so far, the stake, the
      entry cost and the highest exit cost fit into it together; all of that is known
      before the buy. */
  lemma FreezeHoldsIff(p: Policy, c: Campaign)
    requires Capped(p) && c.open.Some? && Gated(p, c.ledger, c.open.value)
    ensures SellsKeepFreeze(p, c) <==> CumulativeLoss(c.ledger) + WorstLoss(p, c.open.value) <= p.freeze
  {
    hide CumulativeLoss, Gated, Step, Possible, Allows, WorstLoss, Capped;
    CappedPrice(p);
    WorstSellIsAllowed(p, c);
    forall e: Event | e.Sell? && Possible(c, e) && Allows(ExitGate, p, e.request)
      ensures CumulativeLoss(Step(p, c, e).ledger) <= CumulativeLoss(c.ledger) + WorstLoss(p, c.open.value)
    {
      SellLosesAtMost(p, c, e);
    }
  }

  // ---------- the freeze along runs ----------

  /** The same at any moment of any run. */
  lemma FreezeHoldsAlongRuns(p: Policy, events: seq<Event>, c: Campaign)
    requires Capped(p) && Run(p, START, events, c) && c.open.Some?
    ensures SellsKeepFreeze(p, c) <==> CumulativeLoss(c.ledger) + WorstLoss(p, c.open.value) <= p.freeze
  {
    hide CumulativeLoss, Step, Possible, Allows, WorstLoss, Capped, SellsKeepFreeze, Run, Gated;
    CappedPrice(p);
    StartIsInv(p);
    RunKeepsInv(p, START, events, c);
    FreezeHoldsIff(p, c);
  }

  /** A buy that goes through leaves room for the worst that can happen to its position. */
  ghost predicate LeavesRoom(p: Policy, c: Campaign, e: Event)
    requires p.price > 0.0
  {
    e.Buy? && Allows(EntryGate(StateOf(c, e.active, e.today, e.context)), p, e.request) ==>
      CumulativeLoss(c.ledger) + e.request.requested + e.request.cost + ExitCost(p) <= p.freeze
  }

  ghost predicate AllLeaveRoom(p: Policy, c: Campaign, events: seq<Event>)
    requires p.price > 0.0
    decreases |events|
  {
    events != [] ==> LeavesRoom(p, c, events[0]) && AllLeaveRoom(p, Step(p, c, events[0]), events[1..])
  }

  ghost predicate HasRoom(p: Policy, c: Campaign)
    requires p.price > 0.0
  {
    && CumulativeLoss(c.ledger) <= p.freeze
    && (c.open.Some? ==> CumulativeLoss(c.ledger) + WorstLoss(p, c.open.value) <= p.freeze)
  }

  lemma StepKeepsRoom(p: Policy, c: Campaign, e: Event)
    requires Capped(p) && Inv(p, c) && HasRoom(p, c) && Possible(c, e) && LeavesRoom(p, c, e)
    ensures HasRoom(p, Step(p, c, e))
  {
    hide CumulativeLoss, LossStreak, Pnl, Allows, Capped, ExitCost, Bounded, Timely, Gated;
    CappedPrice(p);
    if e.Sell? && c.open.Some? && Allows(ExitGate, p, e.request) {
      SellLosesAtMost(p, c, e);
    }
  }

  /** If every buy leaves room, the cumulative loss never passes the freeze. */
  lemma {:induction false} RoomKeepsFreeze(p: Policy, c: Campaign, events: seq<Event>, last: Campaign)
    requires Capped(p) && Inv(p, c) && HasRoom(p, c) && Run(p, c, events, last) && AllLeaveRoom(p, c, events)
    ensures HasRoom(p, last)
    decreases |events|
  {
    hide Inv, Step, Possible, HasRoom, LeavesRoom;
    if events != [] {
      StepKeepsRoom(p, c, events[0]);
      StepKeepsInv(p, c, events[0]);
      RoomKeepsFreeze(p, Step(p, c, events[0]), events[1..], last);
    }
  }

  /** Along every run whose buys leave room, the freeze is a cap. */
  lemma RoomMakesTheFreezeACap(p: Policy, events: seq<Event>, last: Campaign)
    requires Capped(p) && Run(p, START, events, last) && AllLeaveRoom(p, START, events)
    ensures CumulativeLoss(last.ledger) <= p.freeze
  {
    hide Inv, Step, Possible, LeavesRoom, Run, AllLeaveRoom;
    StartIsInv(p);
    RoomKeepsFreeze(p, START, events, last);
  }

  // ---------- runs that pass the freeze ----------

  /** A created policy under which some buy can be allowed. */
  ghost predicate Tradeable(p: Policy) {
    && Capped(p) && p.maxTrade > 0.0 && p.dailyStop > 0.0
    && 0.0 < p.sessionStop && p.sessionStop + Exposure(p) < p.freeze
  }

  lemma PositiveQuanta(x: real)
    requires x >= 0.0 && Down(x) > 0.0
    ensures x >= 0.0001
  {
    DownOfPositive(x);
  }

  lemma SolIsLinear(dollars: real, price: real)
    requires price > 0.0
    ensures Sol(dollars, price) == dollars * Sol(1.0, price)
  {
    var unit, x := 1.0 / price, dollars / price;
    assert unit * price == 1.0 && x * price == dollars;
    assert dollars * unit * price == dollars * (unit * price);
    SameProduct(x, dollars * unit, price);
  }

  lemma SameProduct(a: real, b: real, k: real)
    requires a * k == b * k && k > 0.0
    ensures a == b
  {
    if a < b {
      ScaleStrictly(a, b, k);
    } else if b < a {
      ScaleStrictly(b, a, k);
    }
  }

  /** If the trade cap is not rounded down to nothing, rounding down leaves the session stop and
      one position below the freeze. */
  lemma RoundedStops(unit: real, equity: real)
    requires unit > 0.0 && equity > 0.0 && Down(Min(5.0 * unit, equity * 0.05)) > 0.0
    ensures Down(10.0 * unit) > 0.0
    ensures Down(10.0 * unit) + Down(Min(5.0 * unit, equity * 0.05)) + 0.25 * unit + 0.25 * unit < Down(25.0 * unit)
  {
    hide Down;
    var m := Min(5.0 * unit, equity * 0.05);
    PositiveQuanta(m);
    DownIsLargest(m, 1);
    DownIsLargest(10.0 * unit, 1);
    DownIsLargest(25.0 * unit, 1);
  }

  /** When the trade cap is not zero, neither are the stops, and the freeze is above the
      session stop and one position. */
  lemma CreatedIsTradeable(price: real, equity: real, zoned: bool, slippage: real)
    requires Create(price, equity, zoned, slippage).Ok? && Create(price, equity, zoned, slippage).value.maxTrade > 0.0
    ensures Tradeable(Create(price, equity, zoned, slippage).value)
  {
    hide Down, Sol, Capped, Min, Worth;
    CreatedIsCapped(price, equity, zoned, slippage);
    WorthOfSol(1.0, price);
    SolIsLinear(5.0, price);
    SolIsLinear(10.0, price);
    SolIsLinear(25.0, price);
    SolIsLinear(0.25, price);
    RoundedStops(Sol(1.0, price), equity);
  }

  /** A buy of the whole trade cap without costs, in window 1. */
  function BuyNow(p: Policy): Event {
    Buy(Request("buy", p.maxTrade, 0.0, 0.0, false), Some(1), 0, Context(0.0, false, false))
  }

  function SellNow(p: Policy, pnl: real): Event {
    Sell(Request("sell", p.maxTrade, 0.0, 0.0, false), 1, 0, pnl)
  }

  lemma {:induction false} RunSnoc(p: Policy, c: Campaign, events: seq<Event>, last: Campaign, e: Event)
    requires p.price > 0.0 && Run(p, c, events, last) && Possible(last, e)
    ensures Run(p, c, events + [e], Step(p, last, e))
    decreases |events|
  {
    hide Step, Possible;
    if events == [] {
      assert (events + [e])[1..] == [];
    } else {
      assert (events + [e])[1..] == events[1..] + [e];
      RunSnoc(p, Step(p, c, events[0]), events[1..], last, e);
    }
  }

  /** The figures of a ledger. */
  datatype Figures = Figures(loss: real, streak: nat, total: real)

  function Add(f: Figures, pnl: real): Figures {
    Figures(f.loss + Loss(pnl), if pnl >= 0.0 then 0 else f.streak + 1, f.total + pnl)
  }

  /** A run in window 1 on one day that ends with no position open, and its figures. */
  ghost predicate Reached(p: Policy, events: seq<Event>, l: Ledger, w: nat, f: Figures)
    requires p.price > 0.0
  {
    && w <= 1 && Run(p, START, events, Campaign(l, None, w, 0))
    && CumulativeLoss(l) == f.loss && LossStreak(l) == f.streak
    && Pnl(l, InSession(Some(1))) == f.total && Pnl(l, Since(0)) == f.total
  }

  ghost predicate Clear(p: Policy, f: Figures) {
    f.loss < p.freeze && f.streak < 3 && f.total > -p.sessionStop && f.total > -p.dailyStop
  }

  function Held(p: Policy): Position {
    Position(p.maxTrade, 0.0, Some(1), 0)
  }

  lemma BuyIsAllowed(p: Policy, events: seq<Event>, l: Ledger, w: nat, f: Figures)
    requires Tradeable(p) && Reached(p, events, l, w, f) && Clear(p, f)
    ensures Step(p, Campaign(l, None, w, 0), BuyNow(p)) == Campaign(l, Some(Held(p)), 1, 0)
  {
    hide CumulativeLoss, LossStreak, Pnl, CostCapFor, Run, Exposure;
    CostIsCapped(p, p.maxTrade);
  }

  lemma SellIsAllowed(p: Policy, l: Ledger, pnl: real)
    requires Tradeable(p)
    ensures Step(p, Campaign(l, Some(Held(p)), 1, 0), SellNow(p, pnl)) ==
            Campaign(l + [Outcome(1, 0, pnl)], None, 1, 0)
  {
    hide CostCapFor, Exposure;
    CostIsCapped(p, p.maxTrade);
  }

  /** One more position. */
  lemma OneMore(p: Policy, events: seq<Event>, l: Ledger, w: nat, f: Figures, pnl: real)
    requires Tradeable(p) && Reached(p, events, l, w, f) && Clear(p, f) && pnl >= -p.maxTrade
    ensures Reached(p, events + [BuyNow(p)] + [SellNow(p, pnl)], l + [Outcome(1, 0, pnl)], 1, Add(f, pnl))
  {
    hide Run, Step, CumulativeLoss, LossStreak, Pnl, Clear, Capped, Exposure;
    CappedPrice(p);
    var idle, holding := Campaign(l, None, w, 0), Campaign(l, Some(Held(p)), 1, 0);
    BuyIsAllowed(p, events, l, w, f);
    SellIsAllowed(p, l, pnl);
    RunSnoc(p, START, events, idle, BuyNow(p));
    RunSnoc(p, START, events + [BuyNow(p)], holding, SellNow(p, pnl));
    LedgerSnoc(l, Outcome(1, 0, pnl), InSession(Some(1)));
    LedgerSnoc(l, Outcome(1, 0, pnl), Since(0));
  }

  lemma NothingReached(p: Policy)
    requires p.price > 0.0
    ensures Reached(p, [], [], 0, Figures(0.0, 0, 0.0))
  {
  }

  /** Losses of half the trade cap, each followed by an even position, until one whole trade
      cap passes the target; an earlier profit in the window keeps the other stops away. */
  lemma {:induction false} LosePast(p: Policy, target: real, events: seq<Event>, l: Ledger, loss: real, n: nat)
    returns (run: seq<Event>, ledger: Ledger)
    requires Tradeable(p) && loss <= target <= p.freeze && 0.0 <= loss < p.freeze
    requires Reached(p, events, l, 1, Figures(loss, 0, p.freeze + p.maxTrade - loss))
    requires target - loss < n as real * (p.maxTrade / 2.0)
    ensures p.price > 0.0 && Run(p, START, run, Campaign(ledger, None, 1, 0)) && CumulativeLoss(ledger) > target
    decreases n
  {
    hide Run, CumulativeLoss, LossStreak, Pnl, Exposure, Capped;
    var half, f := p.maxTrade / 2.0, Figures(loss, 0, p.freeze + p.maxTrade - loss);
    CappedPrice(p);
    if loss + p.maxTrade > target {
      OneMore(p, events, l, 1, f, -p.maxTrade);
      run, ledger := events + [BuyNow(p)] + [SellNow(p, -p.maxTrade)], l + [Outcome(1, 0, -p.maxTrade)];
    } else {
      OneMore(p, events, l, 1, f, -half);
      var then1, l1, f1 := events + [BuyNow(p)] + [SellNow(p, -half)], l + [Outcome(1, 0, -half)], Add(f, -half);
      OneMore(p, then1, l1, 1, f1, 0.0);
      var then2, l2 := then1 + [BuyNow(p)] + [SellNow(p, 0.0)], l1 + [Outcome(1, 0, 0.0)];
      assert Add(f1, 0.0) == Figures(loss + half, 0, p.freeze + p.maxTrade - (loss + half));
      assert (n - 1) as real * half == n as real * half - half;
      run, ledger := LosePast(p, target, then2, l2, loss + half, n - 1);
    }
  }

  /** Under every policy that allows any buy, some run in a single window loses more than any
      target up to the freeze. */
  lemma TargetIsPassed(p: Policy, target: real) returns (run: seq<Event>, ledger: Ledger)
    requires Tradeable(p) && 0.0 <= target <= p.freeze
    ensures p.price > 0.0 && Run(p, START, run, Campaign(ledger, None, 1, 0)) && CumulativeLoss(ledger) > target
  {
    hide Run, CumulativeLoss, LossStreak, Pnl;
    CappedPrice(p);
    ExposureIsPositive(p);
    NothingReached(p);
    var gain := p.freeze + p.maxTrade;
    OneMore(p, [], [], 0, Figures(0.0, 0, 0.0), gain);
    var steps := target / (p.maxTrade / 2.0);
    var n := steps.Floor + 1;
    assert steps < n as real;
    StepsReach(target, p.maxTrade / 2.0, n);
    run, ledger := LosePast(p, target, [] + [BuyNow(p)] + [SellNow(p, gain)], [] + [Outcome(1, 0, gain)], 0.0, n);
  }

  lemma StepsReach(target: real, size: real, n: int)
    requires size > 0.0 && target / size < n as real
    ensures target < n as real * size
  {
    ScaleStrictly(target / size, n as real, size);
  }

  lemma ScaleStrictly(a: real, b: real, k: real)
    requires a < b && k > 0.0
    ensures a * k < b * k
  {
  }

  // ---------- when the freeze is a cap ----------

  lemma {:induction false} NothingIsBought(p: Policy, c: Campaign, events: seq<Event>, last: Campaign)
    requires Capped(p) && p.maxTrade == 0.0 && c.open.None? && Run(p, c, events, last)
    ensures last.ledger == c.ledger
    decreases |events|
  {
    hide CostCapFor, CumulativeLoss, LossStreak, Pnl;
    if events != [] {
      if events[0].Buy? {
        var g := EntryGate(StateOf(c, events[0].active, events[0].today, events[0].context));
        assert Refuses(g, BadAmount, p, events[0].request);
      }
      NothingIsBought(p, Step(p, c, events[0]), events[1..], last);
    }
  }

  /** The cumulative freeze is a cap on the losses of every run exactly under the policies
      that allow no buy at all. */
  lemma FreezeIsACapIff(price: real, equity: real, zoned: bool, slippage: real)
    requires Create(price, equity, zoned, slippage).Ok?
    ensures var p := Create(price, equity, zoned, slippage).value;
      && p.price > 0.0
      && ((forall events, last :: Run(p, START, events, last) ==> CumulativeLoss(last.ledger) <= p.freeze)
          <==> p.maxTrade == 0.0)
  {
    var p := Create(price, equity, zoned, slippage).value;
    CreatedIsCapped(price, equity, zoned, slippage);
    if p.maxTrade == 0.0 {
      forall events, last | Run(p, START, events, last)
        ensures CumulativeLoss(last.ledger) <= p.freeze
      {
        NothingIsBought(p, START, events, last);
      }
    } else {
      CreatedIsTradeable(price, equity, zoned, slippage);
      var run, ledger := TargetIsPassed(p, p.freeze);
      assert !(CumulativeLoss(Campaign(ledger, None, 1, 0).ledger) <= p.freeze);
    }
  }

  // ---------- one policy in figures ----------

  const EXAMPLE := Policy(100.0, 1.0, 0.05, 1, 0.1, 0.1, 0.25, 3, 3.0)

  lemma DownOfQuanta(x: real, n: nat)
    requires x == n as real / 10000.0
    ensures Down(x) == x
  {
    WholeQuanta(n);
  }

  lemma ExampleIsCreated()
    ensures Create(100.0, 1.0, true, 3.0) == Ok(EXAMPLE)
  {
    hide Down;
    DownOfQuanta(0.05, 500);
    DownOfQuanta(0.1, 1000);
    DownOfQuanta(0.25, 2500);
    assert Sol(5.0, 100.0) == 0.05 && Sol(10.0, 100.0) == 0.1 && Sol(25.0, 100.0) == 0.25;
  }

  const PNLS := [1.0, -0.05, -0.05, 0.0, -0.05, -0.05, 0.0, -0.025, -0.05]
  const LOSSES := [0.0, 0.0, 0.05, 0.1, 0.1, 0.15, 0.2, 0.2, 0.225, 0.275]
  const STREAKS := [0, 0, 1, 2, 0, 1, 2, 0, 1, 2]

  /** The figures of the example after `i` positions. */
  function FiguresAt(i: nat): Figures
    requires i <= 9
  {
    Figures(LOSSES[i], STREAKS[i], if i == 0 then 0.0 else 1.0 - LOSSES[i])
  }

  lemma FiguresAddUp(i: nat)
    requires i < 9
    ensures Clear(EXAMPLE, FiguresAt(i)) && PNLS[i] >= -EXAMPLE.maxTrade
    ensures Add(FiguresAt(i), PNLS[i]) == FiguresAt(i + 1)
  {
  }

  /** With 1 SOL at $100, a run loses $27.50 in all, past the $25 freeze. */
  lemma FreezeCanBePassed() returns (events: seq<Event>, last: Campaign)
    ensures Create(100.0, 1.0, true, 3.0) == Ok(EXAMPLE) && Run(EXAMPLE, START, events, last)
    ensures Worth(CumulativeLoss(last.ledger), EXAMPLE.price) == 27.5
  {
    ExampleIsCreated();
    CreatedIsTradeable(100.0, 1.0, true, 3.0);
    NothingReached(EXAMPLE);
    hide Run, CumulativeLoss, LossStreak, Pnl, Create, Tradeable, Clear, Add;
    var l: Ledger, w := [], 0;
    events := [];
    for i := 0 to 9
      invariant Reached(EXAMPLE, events, l, w, FiguresAt(i))
    {
      FiguresAddUp(i);
      OneMore(EXAMPLE, events, l, w, FiguresAt(i), PNLS[i]);
      events := events + [BuyNow(EXAMPLE)] + [SellNow(EXAMPLE, PNLS[i])];
      l, w := l + [Outcome(1, 0, PNLS[i])], 1;
    }
    last := Campaign(l, None, w, 0);
  }
}
