/** The statistics of closed paper trades, kept up to date one trade at a time. */
module TradeStats {
  import opened Common
  import opened Options

  datatype Tally = Tally(trades: nat, wins: nat, losses: nat, scratches: nat, pnl: real, best: real, worst: real)

  const ZERO := Tally(0, 0, 0, 0, 0.0, 0.0, 0.0)

  predicate IsWin(threshold: real, pnl: real) {
    pnl > threshold
  }

  predicate IsLoss(threshold: real, pnl: real) {
    !IsWin(threshold, pnl) && pnl < -threshold
  }

  predicate IsScratch(threshold: real, pnl: real) {
    !IsWin(threshold, pnl) && !IsLoss(threshold, pnl)
  }

  function Apply(threshold: real, t: Tally, pnl: real): Tally {
    Tally(
      t.trades + 1,
      t.wins + (if IsWin(threshold, pnl) then 1 else 0),
      t.losses + (if IsLoss(threshold, pnl) then 1 else 0),
      t.scratches + (if IsScratch(threshold, pnl) then 1 else 0),
      t.pnl + pnl,
      if pnl > t.best then pnl else t.best,
      if pnl < t.worst then pnl else t.worst)
  }

  /** A part of a whole in percent, cut to a whole number; zero of nothing. */
  function Rate(part: nat, whole: nat): nat {
    if whole == 0 then 0 else 100 * part / whole
  }

  datatype Rates = Rates(win: nat, grossWin: nat, scratch: nat)

  function RatesOf(t: Tally): Rates {
    Rates(Rate(t.wins, t.wins + t.losses), Rate(t.wins, t.trades), Rate(t.scratches, t.trades))
  }

  class BotStats {
    const threshold: real
    var trades: nat
    var wins: nat
    var losses: nat
    var scratches: nat
    var pnl: real
    var best: real
    var worst: real
    var rates: Rates

    function View(): Tally
      reads this
    {
      Tally(trades, wins, losses, scratches, pnl, best, worst)
    }

    constructor (threshold: real)
      ensures this.threshold == threshold && View() == ZERO && rates == RatesOf(ZERO)
    {
      this.threshold := threshold;
      trades, wins, losses, scratches := 0, 0, 0, 0;
      pnl, best, worst := 0.0, 0.0, 0.0;
      rates := Rates(0, 0, 0);
    }

    /** A trade without a recorded profit counts as zero. */
    method ApplyClosedTrade(profit: Option<real>)
      modifies this
      ensures View() == Apply(threshold, old(View()), if profit.Some? then profit.value else 0.0)
      ensures rates == RatesOf(View())
    {
      var p := if profit.Some? then profit.value else 0.0;
      trades := trades + 1;
      pnl := pnl + p;
      if p > threshold {
        wins := wins + 1;
      } else if p < -threshold {
        losses := losses + 1;
      } else {
        scratches := scratches + 1;
      }
      if p > best {
        best := p;
      }
      if p < worst {
        worst := p;
      }
      var decisive := wins + losses;
      rates := Rates(Rate(wins, decisive), Rate(wins, trades), Rate(scratches, trades));
    }
  }

  // ---------- runs ----------

  /** The tally after these trades, in this order. */
  function TallyOf(threshold: real, ps: seq<real>): Tally {
    if ps == [] then ZERO else Apply(threshold, TallyOf(threshold, ps[..|ps| - 1]), ps[|ps| - 1])
  }

  function CountIf(ps: seq<real>, q: real -> bool): nat {
    if ps == [] then 0 else CountIf(ps[1..], q) + if q(ps[0]) then 1 else 0
  }

  function Sum(ps: seq<real>): real {
    if ps == [] then 0.0 else ps[0] + Sum(ps[1..])
  }

  lemma {:induction false} FoldSnoc(ps: seq<real>, p: real, q: real -> bool)
    ensures CountIf(ps + [p], q) == CountIf(ps, q) + if q(p) then 1 else 0
    ensures Sum(ps + [p]) == Sum(ps) + p
  {
    if ps == [] {
      assert ps + [p] == [p];
    } else {
      assert (ps + [p])[1..] == ps[1..] + [p];
      FoldSnoc(ps[1..], p, q);
    }
  }

  function Wins(threshold: real): real -> bool {
    p => p > threshold
  }

  function Losses(threshold: real): real -> bool {
    p => p <= threshold && p < -threshold
  }

  function Scratches(threshold: real): real -> bool {
    p => -threshold <= p <= threshold
  }

  /** The tally is the summary of the trades: the three kinds partition them, the profit is
      their sum, and the best and the worst are extremes that start at zero. */
  ghost predicate Summarises(threshold: real, t: Tally, ps: seq<real>) {
    && t.trades == |ps| == t.wins + t.losses + t.scratches
    && t.wins == CountIf(ps, Wins(threshold))
    && t.losses == CountIf(ps, Losses(threshold))
    && t.scratches == CountIf(ps, Scratches(threshold))
    && t.pnl == Sum(ps)
    && t.worst <= 0.0 <= t.best && (forall p :: p in ps ==> t.worst <= p <= t.best)
    && (t.best in ps || t.best == 0.0) && (t.worst in ps || t.worst == 0.0)
  }

  lemma {:induction false} TallySummarises(threshold: real, ps: seq<real>)
    ensures Summarises(threshold, TallyOf(threshold, ps), ps)
  {
    if ps != [] {
      var before, p := ps[..|ps| - 1], ps[|ps| - 1];
      assert ps == before + [p];
      TallySummarises(threshold, before);
      FoldSnoc(before, p, Wins(threshold));
      FoldSnoc(before, p, Losses(threshold));
      FoldSnoc(before, p, Scratches(threshold));
    }
  }

  lemma {:induction false} FoldRemove(ps: seq<real>, i: nat, q: real -> bool)
    requires i < |ps|
    ensures CountIf(ps, q) == CountIf(ps[..i] + ps[i + 1..], q) + if q(ps[i]) then 1 else 0
    ensures Sum(ps) == Sum(ps[..i] + ps[i + 1..]) + ps[i]
  {
    if i == 0 {
      assert ps[..0] + ps[1..] == ps[1..];
    } else {
      FoldRemove(ps[1..], i - 1, q);
      assert (ps[..i] + ps[i + 1..])[1..] == ps[1..][..i - 1] + ps[1..][i..];
    }
  }

  lemma MultisetRemove(ps: seq<real>, i: nat)
    requires i < |ps|
    ensures multiset(ps[..i] + ps[i + 1..]) == multiset(ps) - multiset{ps[i]}
  {
    assert ps == ps[..i] + [ps[i]] + ps[i + 1..];
    assert multiset(ps) == multiset(ps[..i]) + multiset{ps[i]} + multiset(ps[i + 1..]);
  }

  /** The first trade of one list has a place in the other. */
  lemma Locate(ps: seq<real>, qs: seq<real>) returns (i: nat)
    requires ps != [] && multiset(ps) == multiset(qs)
    ensures i < |qs| && qs[i] == ps[0] && multiset(ps[1..]) == multiset(qs[..i] + qs[i + 1..])
  {
    assert ps[0] in multiset(ps);
    i :| 0 <= i < |qs| && qs[i] == ps[0];
    MultisetRemove(ps, 0);
    MultisetRemove(qs, i);
    assert ps[..0] + ps[1..] == ps[1..];
  }

  lemma NoneLeft(qs: seq<real>)
    requires multiset(qs) == multiset{}
    ensures qs == []
  {
    assert |multiset(qs)| == 0;
  }

  lemma {:induction false} FoldOfMultiset(ps: seq<real>, qs: seq<real>, q: real -> bool)
    requires multiset(ps) == multiset(qs)
    ensures CountIf(ps, q) == CountIf(qs, q) && Sum(ps) == Sum(qs)
    decreases |ps|
  {
    if ps == [] {
      NoneLeft(qs);
    } else {
      var i := Locate(ps, qs);
      FoldRemove(qs, i, q);
      FoldOfMultiset(ps[1..], qs[..i] + qs[i + 1..], q);
    }
  }

  /** The order in which trades close does not matter: the same trades give the same
      statistics, and a summary determines them. */
  lemma OrderDoesNotMatter(threshold: real, ps: seq<real>, qs: seq<real>)
    requires multiset(ps) == multiset(qs)
    ensures TallyOf(threshold, ps) == TallyOf(threshold, qs)
  {
    TallySummarises(threshold, ps);
    TallySummarises(threshold, qs);
    FoldOfMultiset(ps, qs, Wins(threshold));
    FoldOfMultiset(ps, qs, Losses(threshold));
    FoldOfMultiset(ps, qs, Scratches(threshold));
    forall p
      ensures p in ps <==> p in qs
    {
      assert p in multiset(ps) <==> p in multiset(qs);
    }
    assert |multiset(ps)| == |multiset(qs)|;
  }

  lemma CancelLess(a: int, b: int, k: nat)
    requires a * k < b * k
    ensures a < b
  {
    if a >= b {
      MultiplyAtMost(b, a, k);
    }
  }

  lemma MultiplyAtMost(a: int, b: int, k: nat)
    requires a <= b
    ensures a * k <= b * k
  {
  }

  lemma RateIsQuotient(part: nat, whole: nat)
    requires whole > 0
    ensures Rate(part, whole) * whole <= 100 * part < (Rate(part, whole) + 1) * whole
  {
    var n, q := 100 * part, 100 * part / whole;
    assert n == q * whole + n % whole && 0 <= n % whole < whole;
    assert (q + 1) * whole == q * whole + whole;
  }

  /** The rate is the part in percent of the whole, cut to a whole number; zero of nothing. */
  predicate IsPercentOf(rate: nat, part: nat, whole: nat) {
    if whole == 0 then rate == 0 else rate * whole <= 100 * part < (rate + 1) * whole
  }

  lemma RateIsPercent(part: nat, whole: nat)
    ensures IsPercentOf(Rate(part, whole), part, whole)
  {
    if whole > 0 {
      RateIsQuotient(part, whole);
    }
  }

  /** The three rates, in terms of the trades: the won ones of those decided, the won ones of all, and
      the ones within the threshold of all. */
  lemma RatesOfTrades(threshold: real, ps: seq<real>)
    ensures var r := RatesOf(TallyOf(threshold, ps));
      var won, lost := CountIf(ps, Wins(threshold)), CountIf(ps, Losses(threshold));
      && IsPercentOf(r.win, won, won + lost)
      && IsPercentOf(r.grossWin, won, |ps|)
      && IsPercentOf(r.scratch, CountIf(ps, Scratches(threshold)), |ps|)
  {
    TallySummarises(threshold, ps);
    var t := TallyOf(threshold, ps);
    hide Rate, IsPercentOf, TallyOf, CountIf;
    RateIsPercent(t.wins, t.wins + t.losses);
    RateIsPercent(t.wins, t.trades);
    RateIsPercent(t.scratches, t.trades);
  }

  /** The win and scratch rates of any trades are percentages, and of all trades no more are
      won than of the decided ones. */
  lemma RatesArePercentages(threshold: real, ps: seq<real>)
    ensures var r := RatesOf(TallyOf(threshold, ps));
      r.win <= 100 && r.grossWin <= r.win && r.grossWin + r.scratch <= 100
  {
    hide Rate;
    TallySummarises(threshold, ps);
    var t := TallyOf(threshold, ps);
    RatesAddUp(t.wins, 0, t.wins + t.losses);
    RatesAddUp(t.wins, t.scratches, t.trades);
    RateOfMore(t.wins, t.wins + t.losses, t.trades);
  }

  /** The same part is a smaller rate of a larger whole. */
  lemma RateOfMore(part: nat, whole: nat, more: nat)
    requires part <= whole <= more
    ensures Rate(part, more) <= Rate(part, whole)
  {
    if whole > 0 {
      hide Rate;
      var high, low := Rate(part, more), Rate(part, whole) + 1;
      RateIsQuotient(part, whole);
      RateIsQuotient(part, more);
      MultiplyAtMost(whole, more, low);
      CancelLess(high, low, more);
    }
  }

  lemma QuotientsAddUp(x: nat, y: nat, a: nat, b: nat, whole: nat)
    requires x * whole <= 100 * a && y * whole <= 100 * b && a + b <= whole && whole > 0
    ensures x + y <= 100
  {
    Distribute(whole, x, y);
    CancelLess(x + y, 101, whole);
  }

  /** Two parts of a whole make up at most all of it. */
  lemma RatesAddUp(a: nat, b: nat, whole: nat)
    requires a + b <= whole
    ensures Rate(a, whole) + Rate(b, whole) <= 100
  {
    if whole > 0 {
      RateIsQuotient(a, whole);
      RateIsQuotient(b, whole);
      QuotientsAddUp(Rate(a, whole), Rate(b, whole), a, b, whole);
    }
  }
}
