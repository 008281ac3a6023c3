/** The micro-pilot risk policy: caps fixed once from a reference price, the entry and exit
    gates, and the loss they leave possible over a whole campaign. Amounts are exact reals. */
module PilotRisk {
  import opened Common
  import opened Options

  // ---------- caps ----------

  /** Truncation toward zero to a ten-thousandth. */
  function Down(x: real): real {
    if x >= 0.0 then (x * 10000.0).Floor as real / 10000.0 else -((-x * 10000.0).Floor as real / 10000.0)
  }

  lemma WholeQuanta(n: nat)
    ensures Down(n as real / 10000.0) == n as real / 10000.0
    ensures Down(-(n as real / 10000.0)) == -(n as real / 10000.0)
  {
    var x := n as real / 10000.0;
    assert x * 10000.0 == n as real;
    assert (n as real).Floor == n;
  }

  lemma DownOfPositive(x: real)
    requires x >= 0.0
    ensures Down(x) == (x * 10000.0).Floor as real / 10000.0 && Down(-x) == -Down(x)
    ensures 0.0 <= Down(x) <= x < Down(x) + 0.0001
  {
    var n := (x * 10000.0).Floor;
    assert n as real <= x * 10000.0 < n as real + 1.0;
    assert -(-x) == x;
  }

  /** Truncation never grows an amount, loses less than one quantum, and is the largest
      whole number of quanta within a non-negative amount. */
  lemma DownIsLargest(x: real, k: int)
    requires x >= 0.0
    ensures Down(-x) == -Down(x) && 0.0 <= Down(x) <= x < Down(x) + 0.0001
    ensures k as real / 10000.0 <= x ==> k as real / 10000.0 <= Down(x)
    ensures Down(Down(x)) == Down(x) && Down(Down(-x)) == Down(-x)
  {
    hide Down;
    DownOfPositive(x);
    var n := (x * 10000.0).Floor;
    WholeQuanta(n);
    if k as real / 10000.0 <= x {
      assert k as real <= x * 10000.0;
      assert k <= n;
    }
  }

  // ---------- dollars at the reference price ----------

  function Worth(sol: real, price: real): real {
    sol * price
  }

  function Sol(dollars: real, price: real): real
    requires price > 0.0
  {
    dollars / price
  }

  lemma WorthOfSol(dollars: real, price: real)
    requires price > 0.0
    ensures Worth(Sol(dollars, price), price) == dollars
    ensures dollars >= 0.0 ==> Sol(dollars, price) >= 0.0
    ensures dollars > 0.0 ==> Sol(dollars, price) > 0.0
  {
    var x := dollars / price;
    assert x * price == dollars;
    if x < 0.0 {
      assert x * price < 0.0;
    }
  }

  lemma WorthAdds(a: real, b: real, price: real)
    ensures Worth(a + b, price) == Worth(a, price) + Worth(b, price)
  {
  }

  lemma WorthOrders(a: real, b: real, price: real)
    requires price > 0.0
    ensures a <= b ==> Worth(a, price) <= Worth(b, price)
    ensures a < b ==> Worth(a, price) < Worth(b, price)
  {
  }

  datatype Policy = Policy(
    price: real, equity: real, maxTrade: real, maxOpen: int,
    sessionStop: real, dailyStop: real, freeze: real, lossStop: int, slippage: real)

  datatype PolicyError = NotPositive | NaiveTimestamp | FundingTooHigh | SlippageOutOfRange

  function Create(price: real, equity: real, zoned: bool, slippage: real): Result<Policy, PolicyError> {
    if price <= 0.0 || equity <= 0.0 then Err(NotPositive)
    else if !zoned then Err(NaiveTimestamp)
    else if Worth(equity, price) > 100.0 then Err(FundingTooHigh)
    else if slippage <= 0.0 || slippage > 5.0 then Err(SlippageOutOfRange)
    else Ok(Policy(price, equity, Down(Min(Sol(5.0, price), equity * 0.05)), 1,
                   Down(Sol(10.0, price)), Down(Sol(10.0, price)), Down(Sol(25.0, price)), 3, slippage))
  }

  function CostCapFor(p: Policy, requested: real): real
    requires p.price > 0.0
  {
    Down(Min(Sol(0.25, p.price), requested * 0.05))
  }

  /** A cap is worth at most so many dollars, and one more quantum would exceed them. */
  ghost predicate IsDownOf(sol: real, dollars: real, price: real) {
    0.0 <= sol && Worth(sol, price) <= dollars < Worth(sol + 0.0001, price)
  }

  /** What the caps of a policy are worth at its reference price. */
  ghost predicate Capped(p: Policy) {
    && p.price > 0.0 && p.equity > 0.0 && Worth(p.equity, p.price) <= 100.0
    && 0.0 <= p.maxTrade <= p.equity * 0.05 && Worth(p.maxTrade, p.price) <= 5.0
    && (IsDownOf(p.maxTrade, 5.0, p.price) || p.equity * 0.05 < p.maxTrade + 0.0001)
    && IsDownOf(p.sessionStop, 10.0, p.price) && IsDownOf(p.dailyStop, 10.0, p.price)
    && IsDownOf(p.freeze, 25.0, p.price)
    && p.maxOpen == 1 && p.lossStop == 3 && 0.0 < p.slippage <= 5.0
  }

  lemma DownOfDollars(dollars: real, price: real)
    requires dollars >= 0.0 && price > 0.0
    ensures IsDownOf(Down(Sol(dollars, price)), dollars, price)
  {
    hide Down, Worth, Sol;
    var x := Sol(dollars, price);
    WorthOfSol(dollars, price);
    DownIsLargest(x, 0);
    WorthOrders(Down(x), x, price);
    WorthOrders(x, Down(x) + 0.0001, price);
  }

  /** A policy exists exactly for positive inputs, a zoned timestamp, at most $100 of equity
      and an admissible slippage; its stops are $10, $10 and $25 rounded down, and its trade
      cap is the lower of $5 and a twentieth of the equity rounded down. */
  lemma CreatedIsCapped(price: real, equity: real, zoned: bool, slippage: real)
    ensures Create(price, equity, zoned, slippage).Ok? <==>
      price > 0.0 && equity > 0.0 && zoned && Worth(equity, price) <= 100.0 && 0.0 < slippage <= 5.0
    ensures Create(price, equity, zoned, slippage).Ok? ==>
      var p := Create(price, equity, zoned, slippage).value;
      Capped(p) && p.price == price && p.equity == equity && p.slippage == slippage
  {
    hide Down, Worth, Sol, IsDownOf;
    if Create(price, equity, zoned, slippage).Ok? {
      var five := Sol(5.0, price);
      WorthOfSol(5.0, price);
      DownIsLargest(Min(five, equity * 0.05), 0);
      WorthOrders(Down(Min(five, equity * 0.05)), five, price);
      DownOfDollars(5.0, price);
      DownOfDollars(10.0, price);
      DownOfDollars(25.0, price);
    }
  }

  /** A gated cost is at most 25 cents and at most a twentieth of the amount. */
  lemma CostIsCapped(p: Policy, requested: real)
    requires p.price > 0.0 && requested >= 0.0
    ensures 0.0 <= CostCapFor(p, requested) <= requested * 0.05
    ensures CostCapFor(p, requested) <= Sol(0.25, p.price) && Worth(CostCapFor(p, requested), p.price) <= 0.25
  {
    hide Down, Worth, Sol;
    var q := Sol(0.25, p.price);
    WorthOfSol(0.25, p.price);
    DownIsLargest(Min(q, requested * 0.05), 0);
    WorthOrders(CostCapFor(p, requested), q, p.price);
  }

  // ---------- gates ----------

  datatype Request = Request(action: string, requested: real, slippage: real, cost: real, protective: bool)

  datatype RiskState = RiskState(
    openPositions: int, sessionPnl: real, dailyPnl: real, cumulativeLoss: real, consecutiveLosses: int,
    unavailable: bool, stopped: bool, restart: bool, replenished: bool, capIncrease: bool)

  datatype Blocker = WrongAction | BadAmount | OnePosition | SessionStop | DailyStop | CumulativeFreeze
    | ConsecutiveStop | Unavailable | SlippageCap | CostCap | Stopped | Restart | Replenished | CapIncrease

  datatype Decision = Decision(allowed: bool, blockers: seq<Blocker>, needsRecovery: bool)

  predicate CostsTooMuch(p: Policy, r: Request)
    requires p.price > 0.0
  {
    r.cost < 0.0 || r.cost > CostCapFor(p, r.requested)
  }

  predicate SlipsTooMuch(p: Policy, r: Request) {
    r.slippage < 0.0 || r.slippage > p.slippage
  }

  /** The reasons that refuse a buy. */
  predicate RefusesEntry(b: Blocker, p: Policy, r: Request, s: RiskState)
    requires p.price > 0.0
  {
    match b
    case WrongAction => r.action != "buy"
    case BadAmount => r.requested <= 0.0 || r.requested > p.maxTrade
    case OnePosition => s.openPositions >= p.maxOpen
    case SessionStop => s.sessionPnl <= -p.sessionStop
    case DailyStop => s.dailyPnl <= -p.dailyStop
    case CumulativeFreeze => s.cumulativeLoss >= p.freeze
    case ConsecutiveStop => s.consecutiveLosses >= p.lossStop
    case Unavailable => s.unavailable
    case SlippageCap => SlipsTooMuch(p, r)
    case CostCap => CostsTooMuch(p, r)
    case Stopped => s.stopped
    case Restart => s.restart
    case Replenished => s.replenished
    case CapIncrease => s.capIncrease
  }

  /** The reasons that refuse a sell; the state of the pilot is not among them. */
  predicate RefusesExit(b: Blocker, p: Policy, r: Request)
    requires p.price > 0.0
  {
    match b
    case WrongAction => r.action != "sell"
    case BadAmount => r.requested <= 0.0
    case SlippageCap => SlipsTooMuch(p, r)
    case CostCap => CostsTooMuch(p, r)
    case _ => false
  }

  /** The place of a check in a gate. */
  function Rank(b: Blocker): (r: nat)
    ensures r < 14
  {
    match b
    case WrongAction => 0
    case BadAmount => 1
    case OnePosition => 2
    case SessionStop => 3
    case DailyStop => 4
    case CumulativeFreeze => 5
    case ConsecutiveStop => 6
    case Unavailable => 7
    case SlippageCap => 8
    case CostCap => 9
    case Stopped => 10
    case Restart => 11
    case Replenished => 12
    case CapIncrease => 13
  }

  datatype Gate = EntryGate(state: RiskState) | ExitGate

  predicate Refuses(g: Gate, b: Blocker, p: Policy, r: Request)
    requires p.price > 0.0
  {
    match g
    case EntryGate(s) => RefusesEntry(b, p, r, s)
    case ExitGate => RefusesExit(b, p, r)
  }

  /** A gate allows a request when it has no reason to refuse it. */
  ghost predicate Allows(g: Gate, p: Policy, r: Request)
    requires p.price > 0.0
  {
    forall b :: !Refuses(g, b, p, r)
  }

  /** The list holds, once each and in order, exactly the reasons among the first `done` checks. */
  ghost predicate Lists(bs: seq<Blocker>, g: Gate, p: Policy, r: Request, done: nat)
    requires p.price > 0.0
  {
    && (forall x :: x in bs <==> Rank(x) < done && Refuses(g, x, p, r))
    && (forall i, j :: 0 <= i < j < |bs| ==> Rank(bs[i]) < Rank(bs[j]))
  }

  /** One check of a gate: a reason is appended to the list. */
  method Check(bs: seq<Blocker>, b: Blocker, blocked: bool, ghost g: Gate, ghost p: Policy, ghost r: Request)
    returns (next: seq<Blocker>)
    requires p.price > 0.0 && Lists(bs, g, p, r, Rank(b)) && blocked == Refuses(g, b, p, r)
    ensures Lists(next, g, p, r, Rank(b) + 1)
  {
    next := if blocked then bs + [b] else bs;
  }

  /** A gate may leave out checks that never refuse. */
  lemma Skip(bs: seq<Blocker>, g: Gate, p: Policy, r: Request, done: nat, next: nat)
    requires p.price > 0.0 && Lists(bs, g, p, r, done) && done <= next
    requires forall x :: done <= Rank(x) < next ==> !Refuses(g, x, p, r)
    ensures Lists(bs, g, p, r, next)
  {
  }

  lemma NoneListed(g: Gate, p: Policy, r: Request)
    requires p.price > 0.0
    ensures Lists([], g, p, r, 0)
  {
  }

  /** The decision a gate owes a request: it lists every reason to refuse it, once and in
      order, allows it exactly when there is none, and only a refused protective exit
      needs a recovery decision. */
  ghost predicate Decides(d: Decision, g: Gate, p: Policy, r: Request)
    requires p.price > 0.0
  {
    && (forall x :: x in d.blockers <==> Refuses(g, x, p, r))
    && (forall i, j :: 0 <= i < j < |d.blockers| ==> Rank(d.blockers[i]) < Rank(d.blockers[j]))
    && (d.allowed <==> Allows(g, p, r))
    && (d.needsRecovery <==> g.ExitGate? && r.protective && !Allows(g, p, r))
  }

  lemma AllListed(bs: seq<Blocker>, g: Gate, p: Policy, r: Request)
    requires p.price > 0.0 && Lists(bs, g, p, r, 14)
    ensures Decides(Decision(bs == [], bs, g.ExitGate? && r.protective && bs != []), g, p, r)
  {
    hide RefusesEntry, RefusesExit;
    if bs != [] {
      assert bs[0] in bs;
    }
  }

  /** The second half of the entry gate: the terms of the trade and the state of the pilot. */
  method CheckTerms(before: seq<Blocker>, p: Policy, r: Request, s: RiskState) returns (bs: seq<Blocker>)
    requires p.price > 0.0 && Lists(before, EntryGate(s), p, r, 7)
    ensures Lists(bs, EntryGate(s), p, r, 14)
  {
    hide Lists, CostCapFor, CostsTooMuch, SlipsTooMuch;
    ghost var g := EntryGate(s);
    bs := Check(before, Unavailable, s.unavailable, g, p, r);
    bs := Check(bs, SlippageCap, SlipsTooMuch(p, r), g, p, r);
    bs := Check(bs, CostCap, CostsTooMuch(p, r), g, p, r);
    bs := Check(bs, Stopped, s.stopped, g, p, r);
    bs := Check(bs, Restart, s.restart, g, p, r);
    bs := Check(bs, Replenished, s.replenished, g, p, r);
    bs := Check(bs, CapIncrease, s.capIncrease, g, p, r);
  }

  method EvaluateEntry(p: Policy, r: Request, s: RiskState) returns (d: Decision)
    requires p.price > 0.0
    ensures Decides(d, EntryGate(s), p, r)
  {
    hide Lists, CostCapFor, CostsTooMuch, SlipsTooMuch, Decides;
    ghost var g := EntryGate(s);
    NoneListed(g, p, r);
    var bs := Check([], WrongAction, r.action != "buy", g, p, r);
    bs := Check(bs, BadAmount, r.requested <= 0.0 || r.requested > p.maxTrade, g, p, r);
    bs := Check(bs, OnePosition, s.openPositions >= p.maxOpen, g, p, r);
    bs := Check(bs, SessionStop, s.sessionPnl <= -p.sessionStop, g, p, r);
    bs := Check(bs, DailyStop, s.dailyPnl <= -p.dailyStop, g, p, r);
    bs := Check(bs, CumulativeFreeze, s.cumulativeLoss >= p.freeze, g, p, r);
    bs := Check(bs, ConsecutiveStop, s.consecutiveLosses >= p.lossStop, g, p, r);
    bs := CheckTerms(bs, p, r, s);
    AllListed(bs, g, p, r);
    d := Decision(bs == [], bs, false);
  }

  method EvaluateExit(p: Policy, r: Request) returns (d: Decision)
    requires p.price > 0.0
    ensures Decides(d, ExitGate, p, r)
  {
    hide Lists, CostCapFor, CostsTooMuch, SlipsTooMuch, Decides;
    ghost var g := ExitGate;
    NoneListed(g, p, r);
    var bs := Check([], WrongAction, r.action != "sell", g, p, r);
    bs := Check(bs, BadAmount, r.requested <= 0.0, g, p, r);
    Skip(bs, g, p, r, 2, 8);
    bs := Check(bs, SlippageCap, SlipsTooMuch(p, r), g, p, r);
    bs := Check(bs, CostCap, CostsTooMuch(p, r), g, p, r);
    Skip(bs, g, p, r, 10, 14);
    AllListed(bs, g, p, r);
    d := Decision(bs == [], bs, r.protective && bs != []);
  }

  // ---------- the loss ledger ----------

  /** A recorded outcome: the pilot window and the day it falls in, and its profit or loss. */
  datatype Outcome = Outcome(window: nat, day: int, pnl: real)

  /** The outcomes of one policy, oldest first. */
  type Ledger = seq<Outcome>

  function Loss(pnl: real): real {
    if pnl < 0.0 then -pnl else 0.0
  }

  function CumulativeLoss(l: Ledger): (r: real)
    ensures r >= 0.0
  {
    if l == [] then 0.0 else CumulativeLoss(l[..|l| - 1]) + Loss(l[|l| - 1].pnl)
  }

  /** The number of losses since the last outcome that was not one. */
  function LossStreak(l: Ledger): nat {
    if l == [] || l[|l| - 1].pnl >= 0.0 then 0 else LossStreak(l[..|l| - 1]) + 1
  }

  /** The profit or loss of the outcomes selected by a predicate. */
  function Pnl(l: Ledger, p: Outcome -> bool): real {
    if l == [] then 0.0 else Pnl(l[..|l| - 1], p) + (if p(l[|l| - 1]) then l[|l| - 1].pnl else 0.0)
  }

  /** The outcomes of the active window, or all of them when none is active. */
  function InSession(window: Option<nat>): Outcome -> bool {
    (o: Outcome) => window.None? || o.window == window.value
  }

  function Since(day: int): Outcome -> bool {
    (o: Outcome) => o.day >= day
  }

  function OnDay(day: int): Outcome -> bool {
    (o: Outcome) => o.day == day
  }

  // ---------- campaigns ----------

  /** A position bought through the gate: its stake, its entry cost, and the ledger the gate saw. */
  datatype Position = Position(stake: real, cost: real, window: Option<nat>, day: int)

  datatype Campaign = Campaign(ledger: Ledger, open: Option<Position>, window: nat, day: int)

  /** The part of the state that does not come from the ledger. */
  datatype Context = Context(unrealized: real, unavailable: bool, stopped: bool)

  /** A buy or a sell is attempted on a day, in a window; a sell that goes through records `pnl`. */
  datatype Event =
    | Buy(request: Request, active: Option<nat>, today: int, context: Context)
    | Sell(request: Request, window: nat, today: int, pnl: real)

  function StateOf(c: Campaign, active: Option<nat>, today: int, x: Context): RiskState {
    var unrealized := if c.open.Some? then x.unrealized else 0.0;
    RiskState(
      if c.open.Some? then 1 else 0,
      Pnl(c.ledger, InSession(active)) + unrealized,
      Pnl(c.ledger, Since(today)) + unrealized,
      CumulativeLoss(c.ledger), LossStreak(c.ledger), x.unavailable, x.stopped, false, false, false)
  }

  ghost function Step(p: Policy, c: Campaign, e: Event): Campaign
    requires p.price > 0.0
  {
    match e
    case Buy(r, active, today, x) =>
      var window := if active.Some? then active.value else c.window;
      if Allows(EntryGate(StateOf(c, active, today, x)), p, r)
      then Campaign(c.ledger, Some(Position(r.requested, r.cost, active, today)), window, today)
      else c.(window := window, day := today)
    case Sell(r, window, today, pnl) =>
      if c.open.Some? && Allows(ExitGate, p, r)
      then Campaign(c.ledger + [Outcome(window, today, pnl)], None, window, today)
      else c.(window := window, day := today)
  }

  /** Time does not go back, windows follow each other, a position loses at most its stake and
      its two costs, and one bought outside any window is sold in a window that has no
      outcome yet: a window that was closed is not opened again, and sells are recorded
      only in an open one. */
  predicate Possible(c: Campaign, e: Event) {
    match e
    case Buy(r, active, today, x) => today >= c.day && (active.Some? ==> active.value >= c.window)
    case Sell(r, window, today, pnl) =>
      && today >= c.day && window >= c.window
      && (c.open.Some? ==>
            && pnl >= -(c.open.value.stake + c.open.value.cost + r.cost)
            && (c.open.value.window.None? ==> forall o :: o in c.ledger ==> o.window != window))
  }

  ghost predicate Run(p: Policy, c: Campaign, events: seq<Event>, last: Campaign)
    requires p.price > 0.0
    decreases |events|
  {
    if events == [] then last == c
    else Possible(c, events[0]) && Run(p, Step(p, c, events[0]), events[1..], last)
  }

  const START := Campaign([], None, 0, 0)

  /** What one position can lose: the trade cap and twice the 25-cent cost cap. */
  function Exposure(p: Policy): real
    requires p.price > 0.0
  {
    p.maxTrade + Sol(0.25, p.price) + Sol(0.25, p.price)
  }

  lemma LedgerSnoc(l: Ledger, o: Outcome, q: Outcome -> bool)
    ensures CumulativeLoss(l + [o]) == CumulativeLoss(l) + Loss(o.pnl)
    ensures LossStreak(l + [o]) == if o.pnl >= 0.0 then 0 else LossStreak(l) + 1
    ensures Pnl(l + [o], q) == Pnl(l, q) + if q(o) then o.pnl else 0.0
  {
    assert (l + [o])[..|l|] == l;
  }

  /** Only the selected outcomes matter. */
  lemma {:induction false} PnlSame(l: Ledger, q: Outcome -> bool, q': Outcome -> bool)
    requires forall o :: o in l ==> q(o) == q'(o)
    ensures Pnl(l, q) == Pnl(l, q')
  {
    if l != [] {
      PnlSame(l[..|l| - 1], q, q');
    }
  }

  lemma {:induction false} PnlOfNone(l: Ledger, q: Outcome -> bool)
    requires forall o :: o in l ==> !q(o)
    ensures Pnl(l, q) == 0.0
  {
    if l != [] {
      PnlOfNone(l[..|l| - 1], q);
    }
  }

  // ---------- what every step keeps ----------

  /** The ledger is not ahead of the clock. */
  ghost predicate Timely(c: Campaign) {
    && (forall o :: o in c.ledger ==> o.day <= c.day && o.window <= c.window)
    && (c.open.Some? ==>
          && c.open.value.day <= c.day && (forall o :: o in c.ledger ==> o.day <= c.open.value.day)
          && (c.open.value.window.Some? ==>
                && c.open.value.window.value <= c.window
                && forall o :: o in c.ledger ==> o.window <= c.open.value.window.value))
  }

  /** An open position passed the gate on the present ledger. */
  ghost predicate Gated(p: Policy, l: Ledger, o: Position)
    requires p.price > 0.0
  {
    && 0.0 < o.stake <= p.maxTrade && 0.0 <= o.cost <= Sol(0.25, p.price)
    && CumulativeLoss(l) < p.freeze && LossStreak(l) < p.lossStop
    && Pnl(l, InSession(o.window)) > -p.sessionStop && Pnl(l, Since(o.day)) > -p.dailyStop
  }

  ghost predicate Bounded(p: Policy, l: Ledger)
    requires p.price > 0.0
  {
    && CumulativeLoss(l) < p.freeze + Exposure(p) && LossStreak(l) <= p.lossStop
    && forall d :: Pnl(l, OnDay(d)) >= -(p.dailyStop + Exposure(p))
  }

  ghost predicate Inv(p: Policy, c: Campaign)
    requires p.price > 0.0
  {
    Timely(c) && Bounded(p, c.ledger) && (c.open.Some? ==> Gated(p, c.ledger, c.open.value))
  }

  /** The gate lets a buy through only when no position is open. */
  lemma AllowedBuy(p: Policy, c: Campaign, r: Request, active: Option<nat>, today: int, x: Context)
    requires Capped(p) && Allows(EntryGate(StateOf(c, active, today, x)), p, r)
    ensures c.open.None? && Gated(p, c.ledger, Position(r.requested, r.cost, active, today))
  {
    hide CostCapFor, Worth, Sol;
    var s := StateOf(c, active, today, x);
    var g := EntryGate(s);
    assert !Refuses(g, OnePosition, p, r) && !Refuses(g, BadAmount, p, r) && !Refuses(g, CostCap, p, r);
    assert !Refuses(g, SessionStop, p, r) && !Refuses(g, DailyStop, p, r);
    assert !Refuses(g, CumulativeFreeze, p, r) && !Refuses(g, ConsecutiveStop, p, r);
    CostIsCapped(p, r.requested);
  }

  /** The profit or loss of a day before a position is closed on it. */
  lemma BeforeClosing(p: Policy, c: Campaign, today: int)
    requires Capped(p) && Inv(p, c) && c.open.Some? && today >= c.day
    ensures Pnl(c.ledger, OnDay(today)) >= -p.dailyStop
  {
    hide Pnl, CumulativeLoss, LossStreak;
    if today == c.open.value.day {
      PnlSame(c.ledger, OnDay(today), Since(today));
    } else {
      PnlOfNone(c.ledger, OnDay(today));
    }
  }

  /** Closing a gated position keeps every bound. */
  lemma ClosingIsBounded(p: Policy, c: Campaign, r: Request, window: nat, today: int, pnl: real)
    requires Capped(p) && Inv(p, c) && c.open.Some? && Allows(ExitGate, p, r)
    requires Possible(c, Sell(r, window, today, pnl))
    ensures Bounded(p, c.ledger + [Outcome(window, today, pnl)])
    ensures pnl >= -Exposure(p)
  {
    hide Pnl, CumulativeLoss, LossStreak, CostCapFor, Worth, Sol, IsDownOf;
    var o := Outcome(window, today, pnl);
    assert !Refuses(ExitGate, BadAmount, p, r) && !Refuses(ExitGate, CostCap, p, r);
    CostIsCapped(p, r.requested);
    BeforeClosing(p, c, today);
    forall d
      ensures Pnl(c.ledger + [o], OnDay(d)) >= -(p.dailyStop + Exposure(p))
    {
      LedgerSnoc(c.ledger, o, OnDay(d));
    }
    LedgerSnoc(c.ledger, o, OnDay(today));
  }

  lemma StepKeepsInv(p: Policy, c: Campaign, e: Event)
    requires Capped(p) && Inv(p, c) && Possible(c, e)
    ensures Inv(p, Step(p, c, e))
  {
    hide Bounded, Gated, Allows, StateOf;
    match e
    case Buy(r, active, today, x) =>
      if Allows(EntryGate(StateOf(c, active, today, x)), p, r) {
        AllowedBuy(p, c, r, active, today, x);
      }
    case Sell(r, window, today, pnl) =>
      if c.open.Some? && Allows(ExitGate, p, r) {
        ClosingIsBounded(p, c, r, window, today, pnl);
      }
  }

  lemma {:induction false} RunKeepsInv(p: Policy, c: Campaign, events: seq<Event>, last: Campaign)
    requires Capped(p) && Inv(p, c) && Run(p, c, events, last)
    ensures Inv(p, last)
    decreases |events|
  {
    hide Inv, Step, Possible;
    if events != [] {
      StepKeepsInv(p, c, events[0]);
      RunKeepsInv(p, Step(p, c, events[0]), events[1..], last);
    }
  }

  lemma StartIsInv(p: Policy)
    requires Capped(p)
    ensures Inv(p, START)
  {
    WorthOfSol(0.25, p.price);
  }

  /** In dollars: a stop plus one position's exposure. */
  lemma InDollars(p: Policy, x: real, stop: real, dollars: real)
    requires Capped(p) && Worth(stop, p.price) <= dollars
    ensures x <= stop + Exposure(p) ==> Worth(x, p.price) <= dollars + 5.0 + 2.0 * 0.25
    ensures x < stop + Exposure(p) ==> Worth(x, p.price) < dollars + 5.0 + 2.0 * 0.25
  {
    hide Worth, Sol, IsDownOf;
    var q := Sol(0.25, p.price);
    WorthOfSol(0.25, p.price);
    WorthAdds(stop, Exposure(p), p.price);
    WorthAdds(p.maxTrade + q, q, p.price);
    WorthAdds(p.maxTrade, q, p.price);
    WorthOrders(x, stop + Exposure(p), p.price);
  }

  lemma BoundsInDollars(p: Policy, c: Campaign, day: int)
    requires Capped(p) && Inv(p, c)
    ensures Worth(CumulativeLoss(c.ledger), p.price) < 25.0 + 5.0 + 2.0 * 0.25
    ensures Worth(-Pnl(c.ledger, OnDay(day)), p.price) <= 10.0 + 5.0 + 2.0 * 0.25
    ensures LossStreak(c.ledger) <= 3
    ensures c.open.Some? ==>
      Worth(c.open.value.stake, p.price) <= 5.0 && c.open.value.stake <= p.equity * 0.05
  {
    hide CumulativeLoss, Pnl, LossStreak, Exposure, Worth, Sol, Timely;
    InDollars(p, CumulativeLoss(c.ledger), p.freeze, 25.0);
    InDollars(p, -Pnl(c.ledger, OnDay(day)), p.dailyStop, 10.0);
    if c.open.Some? {
      WorthOrders(c.open.value.stake, p.maxTrade, p.price);
    }
  }

  /** Over any run of gated buys and sells, at most one position being open at a time by
      the gate itself: at the reference price the cumulative loss stays under the $25 freeze
      plus one position ($5 and two costs of 25 cents), the loss of every day stays within
      the $10 stop plus one position, overnight positions included, and there are never
      more than three losses in a row. */
  lemma LossesAreBounded(p: Policy, events: seq<Event>, last: Campaign, day: int)
    requires Capped(p) && Run(p, START, events, last)
    ensures Worth(CumulativeLoss(last.ledger), p.price) < 25.0 + 5.0 + 2.0 * 0.25
    ensures Worth(-Pnl(last.ledger, OnDay(day)), p.price) <= 10.0 + 5.0 + 2.0 * 0.25
    ensures LossStreak(last.ledger) <= 3
    ensures last.open.Some? ==> Worth(last.open.value.stake, p.price) <= 5.0 && last.open.value.stake <= p.equity * 0.05
  {
    CappedPrice(p);
    hide *;
    StartIsInv(p);
    RunKeepsInv(p, START, events, last);
    BoundsInDollars(p, last, day);
  }

  lemma CappedPrice(p: Policy)
    requires Capped(p)
    ensures p.price > 0.0
  {
  }

  // ---------- windows ----------

  ghost predicate SessionBounded(p: Policy, l: Ledger)
    requires p.price > 0.0
  {
    forall w :: Pnl(l, InSession(Some(w))) >= -(p.sessionStop + Exposure(p))
  }

  lemma BeforeClosingInWindow(p: Policy, c: Campaign, e: Event)
    requires Capped(p) && Inv(p, c) && c.open.Some? && e.Sell? && Possible(c, e)
    ensures Pnl(c.ledger, InSession(Some(e.window))) >= -p.sessionStop
  {
    hide Pnl, CumulativeLoss, LossStreak;
    if c.open.value.window == Some(e.window) {
      assert Pnl(c.ledger, InSession(c.open.value.window)) > -p.sessionStop;
    } else {
      PnlOfNone(c.ledger, InSession(Some(e.window)));
    }
  }

  lemma StepKeepsSession(p: Policy, c: Campaign, e: Event)
    requires Capped(p) && Inv(p, c) && Possible(c, e) && SessionBounded(p, c.ledger)
    ensures SessionBounded(p, Step(p, c, e).ledger)
  {
    hide Pnl, CumulativeLoss, LossStreak, Allows, StateOf, Exposure, Bounded;
    if e.Sell? && c.open.Some? && Allows(ExitGate, p, e.request) {
      var o := Outcome(e.window, e.today, e.pnl);
      ClosingIsBounded(p, c, e.request, e.window, e.today, e.pnl);
      BeforeClosingInWindow(p, c, e);
      ExposureIsPositive(p);
      forall w
        ensures Pnl(c.ledger + [o], InSession(Some(w))) >= -(p.sessionStop + Exposure(p))
      {
        LedgerSnoc(c.ledger, o, InSession(Some(w)));
      }
    }
  }

  lemma ExposureIsPositive(p: Policy)
    requires Capped(p)
    ensures Exposure(p) > 0.0
  {
    WorthOfSol(0.25, p.price);
  }

  lemma {:induction false} RunKeepsSession(p: Policy, c: Campaign, events: seq<Event>, last: Campaign)
    requires Capped(p) && Inv(p, c) && Run(p, c, events, last) && SessionBounded(p, c.ledger)
    ensures SessionBounded(p, last.ledger)
    decreases |events|
  {
    hide Inv, Step, Possible, SessionBounded;
    if events != [] {
      StepKeepsInv(p, c, events[0]);
      StepKeepsSession(p, c, events[0]);
      RunKeepsSession(p, Step(p, c, events[0]), events[1..], last);
    }
  }

  /** Over any run, whether positions are bought in a window or outside any, the loss of each
      window stays within the $10 stop plus one position, even for positions sold in a
      later window than the one they were bought in. */
  lemma SessionLossesAreBounded(p: Policy, events: seq<Event>, last: Campaign, window: nat)
    requires Capped(p) && Run(p, START, events, last)
    ensures Worth(-Pnl(last.ledger, InSession(Some(window))), p.price) <= 10.0 + 5.0 + 2.0 * 0.25
  {
    CappedPrice(p);
    hide *;
    StartIsInv(p);
    StartInSession(p);
    RunKeepsSession(p, START, events, last);
    SessionInDollars(p, last.ledger, window);
  }

  lemma StartInSession(p: Policy)
    requires Capped(p)
    ensures SessionBounded(p, START.ledger)
  {
    ExposureIsPositive(p);
  }

  lemma SessionInDollars(p: Policy, l: Ledger, window: nat)
    requires Capped(p) && SessionBounded(p, l)
    ensures Worth(-Pnl(l, InSession(Some(window))), p.price) <= 10.0 + 5.0 + 2.0 * 0.25
  {
    hide Pnl, Exposure, Worth;
    InDollars(p, -Pnl(l, InSession(Some(window))), p.sessionStop, 10.0);
  }

  // ---------- stops are final ----------

  ghost predicate Frozen(p: Policy, c: Campaign) {
    c.open.None? && (CumulativeLoss(c.ledger) >= p.freeze || LossStreak(c.ledger) >= p.lossStop)
  }

  lemma FrozenStep(p: Policy, c: Campaign, e: Event)
    requires Capped(p) && Frozen(p, c)
    ensures Frozen(p, Step(p, c, e)) && Step(p, c, e).ledger == c.ledger
  {
    hide CumulativeLoss, LossStreak, CostCapFor, Pnl;
    if e.Buy? {
      var g := EntryGate(StateOf(c, e.active, e.today, e.context));
      assert Refuses(g, CumulativeFreeze, p, e.request) || Refuses(g, ConsecutiveStop, p, e.request);
    }
  }

  /** Once the cumulative freeze or the third loss in a row is reached with no position open,
      no buy is ever allowed again and the ledger never changes: no later outcome, not even
      a win, can lift either stop. */
  lemma {:induction false} FreezeIsFinal(p: Policy, c: Campaign, events: seq<Event>, last: Campaign)
    requires Capped(p) && Frozen(p, c) && Run(p, c, events, last)
    ensures Frozen(p, last) && last.ledger == c.ledger
    decreases |events|
  {
    hide Step, Possible, Frozen;
    if events != [] {
      FrozenStep(p, c, events[0]);
      FreezeIsFinal(p, Step(p, c, events[0]), events[1..], last);
    }
  }
}
