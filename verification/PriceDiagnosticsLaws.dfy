/** The numbers of `PriceDiagnostics`, counted out on the observations. */
module PriceDiagnosticsLaws {
  import opened Common
  import opened Options
  import opened StableSort
  import opened PriceDiagnostics

  // ---------- jumps ----------

  /** The price moves by more than ten times the previous one, which is positive. */
  predicate Leaps(previous: real, price: real) {
    previous > 0.0 && (price - previous > 10.0 * previous || previous - price > 10.0 * previous)
  }

  lemma QuotientBound(x: real, d: real, q: real)
    requires d > 0.0
    ensures x / d > q <==> x > q * d
    ensures x / d < -q <==> x < -q * d
  {
    var y := x / d;
    assert x == y * d;
    assert (y - q) * d == x - q * d && (y + q) * d == x + q * d;
    SignOfProduct(y - q, d);
    SignOfProduct(y + q, d);
    assert x < -q * d <==> x + q * d < 0.0;
  }

  lemma SignOfProduct(x: real, d: real)
    requires d > 0.0
    ensures x * d > 0.0 <==> x > 0.0
    ensures x * d < 0.0 <==> x < 0.0
  {
  }

  lemma JumpLeaps(previous: real, price: real)
    ensures IsJump(previous, price) <==> Leaps(previous, price)
  {
    if previous > 0.0 {
      QuotientBound(price - previous, previous, 10.0);
    }
  }

  /** The accepted prices of one mint other than zero, in order. */
  function History(xs: seq<Observation>, mint: string): seq<real> {
    if xs == [] then []
    else
      var rest := History(xs[1..], mint);
      match xs[0].price
      case Some(price) => if xs[0].accepted && xs[0].mint == mint && price != 0.0 then [price] + rest else rest
      case None => rest
  }

  lemma {:induction false} HistorySnoc(xs: seq<Observation>, o: Observation, mint: string)
    ensures History(xs + [o], mint) == History(xs, mint) + History([o], mint)
  {
    if xs == [] {
      assert [] + [o] == [o];
    } else {
      assert (xs + [o])[1..] == xs[1..] + [o];
      HistorySnoc(xs[1..], o, mint);
    }
  }

  lemma {:induction false} PricesAreHistory(xs: seq<Observation>, mint: string)
    ensures Prices(xs, mint) == History(xs, mint)
    decreases |xs|
  {
    if xs != [] {
      var init, o := xs[..|xs| - 1], xs[|xs| - 1];
      assert xs == init + [o] && [o][1..] == [];
      PricesAreHistory(init, mint);
      HistorySnoc(init, o, mint);
    }
  }

  predicate LeapsAt(ps: seq<real>, k: nat) {
    1 <= k < |ps| && Leaps(ps[k - 1], ps[k])
  }

  /** The places of the prices that leap from the one before. */
  function LeapPlaces(ps: seq<real>): set<nat> {
    set k: nat | k < |ps| && LeapsAt(ps, k)
  }

  lemma {:induction false} JumpsAreLeaps(ps: seq<real>)
    ensures Jumps(ps) == |LeapPlaces(ps)|
    decreases |ps|
  {
    hide Leaps, IsJump;
    if |ps| < 2 {
      assert LeapPlaces(ps) == {};
    } else {
      var init, n := ps[..|ps| - 1], |ps| - 1;
      JumpsAreLeaps(init);
      JumpLeaps(ps[n - 1], ps[n]);
      LeapsOfMore(ps);
    }
  }

  lemma LeapsOfMore(ps: seq<real>)
    requires |ps| >= 2
    ensures var n := |ps| - 1;
      |LeapPlaces(ps)| == |LeapPlaces(ps[..n])| + if Leaps(ps[n - 1], ps[n]) then 1 else 0
  {
    hide Leaps;
    var n := |ps| - 1;
    forall k: nat | k < n
      ensures LeapsAt(ps[..n], k) <==> LeapsAt(ps, k)
    {
    }
    assert LeapPlaces(ps) == LeapPlaces(ps[..n]) + if Leaps(ps[n - 1], ps[n]) then {n} else {};
  }

  /** The jumps of one mint are the leaps in its accepted prices. */
  lemma JumpsOfAMint(xs: seq<Observation>, mint: string)
    ensures Jumps(Prices(xs, mint)) == |LeapPlaces(History(xs, mint))|
  {
    PricesAreHistory(xs, mint);
    JumpsAreLeaps(History(xs, mint));
  }

  /** All leaps in the histories of these mints. */
  function LeapsIn(xs: seq<Observation>, mints: seq<string>): nat {
    if mints == [] then 0
    else LeapsIn(xs, mints[..|mints| - 1]) + |LeapPlaces(History(xs, mints[|mints| - 1]))|
  }

  lemma {:induction false} TotalIsLeaps(xs: seq<Observation>, mints: seq<string>)
    ensures TotalJumps(xs, mints) == LeapsIn(xs, mints)
    decreases |mints|
  {
    if mints != [] {
      hide Jumps, Prices, LeapPlaces, History;
      TotalIsLeaps(xs, mints[..|mints| - 1]);
      JumpsOfAMint(xs, mints[|mints| - 1]);
    }
  }

  // ---------- source rows ----------

  /** An observation without a source counts as from "unknown". */
  predicate IsFrom(o: Observation, source: string) {
    if o.source == "" then source == "unknown" else o.source == source
  }

  function CountFrom(xs: seq<Observation>, source: string): nat {
    if xs == [] then 0 else (if IsFrom(xs[0], source) then 1 else 0) + CountFrom(xs[1..], source)
  }

  function AcceptedFrom(xs: seq<Observation>, source: string): nat {
    if xs == [] then 0
    else (if IsFrom(xs[0], source) && xs[0].accepted then 1 else 0) + AcceptedFrom(xs[1..], source)
  }

  function ConfidenceFrom(xs: seq<Observation>, source: string): real {
    if xs == [] then 0.0
    else (if IsFrom(xs[0], source) then xs[0].confidence else 0.0) + ConfidenceFrom(xs[1..], source)
  }

  lemma {:induction false} FromSnoc(xs: seq<Observation>, o: Observation, source: string)
    ensures CountFrom(xs + [o], source) == CountFrom(xs, source) + if IsFrom(o, source) then 1 else 0
    ensures AcceptedFrom(xs + [o], source)
         == AcceptedFrom(xs, source) + if IsFrom(o, source) && o.accepted then 1 else 0
    ensures ConfidenceFrom(xs + [o], source)
         == ConfidenceFrom(xs, source) + if IsFrom(o, source) then o.confidence else 0.0
  {
    hide IsFrom;
    if xs == [] {
      assert [] + [o] == [o];
    } else {
      assert (xs + [o])[1..] == xs[1..] + [o];
      FromSnoc(xs[1..], o, source);
    }
  }

  lemma LabelIsFrom(o: Observation, source: string)
    ensures Label(o) == source <==> IsFrom(o, source)
  {
  }

  lemma {:induction false} BucketCounts(xs: seq<Observation>, source: string)
    ensures BucketOf(xs, source)
         == Bucket(CountFrom(xs, source), AcceptedFrom(xs, source), ConfidenceFrom(xs, source))
    decreases |xs|
  {
    hide Label, IsFrom;
    if xs != [] {
      var init, o := xs[..|xs| - 1], xs[|xs| - 1];
      assert xs == init + [o];
      BucketCounts(init, source);
      FromSnoc(init, o, source);
      LabelIsFrom(o, source);
    }
  }

  /** `rate` is the quotient of the two, with a whole of at least one. */
  predicate IsRate(rate: real, part: real, whole: nat) {
    if whole == 0 then rate == part else rate * whole as real == part
  }

  lemma RatioIsRate(part: real, whole: nat)
    ensures IsRate(Ratio(part, whole), part, whole)
  {
  }

  /** The row of a source says what its observations say. */
  predicate RowMeans(xs: seq<Observation>, r: Row) {
    && r.count == CountFrom(xs, r.source)
    && r.accepted == AcceptedFrom(xs, r.source)
    && IsRate(r.acceptanceRate, AcceptedFrom(xs, r.source) as real, r.count)
    && IsRate(r.averageConfidence, ConfidenceFrom(xs, r.source), r.count)
  }

  lemma RowsMean(labels: seq<string>, xs: seq<Observation>, i: nat)
    requires i < |labels|
    ensures Rows(labels, xs)[i].source == labels[i] && RowMeans(xs, Rows(labels, xs)[i])
  {
    hide BucketOf, Ratio, IsRate;
    BucketCounts(xs, labels[i]);
    RatioIsRate(AcceptedFrom(xs, labels[i]) as real, CountFrom(xs, labels[i]));
    RatioIsRate(ConfidenceFrom(xs, labels[i]), CountFrom(xs, labels[i]));
  }

  // ---------- the whole report ----------

  function AcceptedIn(xs: seq<Observation>): nat {
    if xs == [] then 0 else (if xs[0].accepted then 1 else 0) + AcceptedIn(xs[1..])
  }

  function AcceptedConfidence(xs: seq<Observation>): real {
    if xs == [] then 0.0 else (if xs[0].accepted then xs[0].confidence else 0.0) + AcceptedConfidence(xs[1..])
  }

  lemma {:induction false} FilterCounts(xs: seq<Observation>)
    ensures AcceptedCount(xs) == AcceptedIn(xs)
    ensures ConfidenceSum(Filter(xs, IsAccepted())) == AcceptedConfidence(xs)
  {
    if xs != [] {
      FilterCounts(xs[1..]);
      var rest := Filter(xs[1..], IsAccepted());
      if xs[0].accepted {
        assert ([xs[0]] + rest)[1..] == rest;
      } else {
        assert [] + rest == rest;
      }
    }
  }

  /** The recommended confidence: 0.45 without observations, 0.55 without accepted ones, else the
      accepted average less 0.05, kept within 0.45 and 0.85. */
  predicate IsRecommended(xs: seq<Observation>, r: real) {
    if xs == [] then r == 0.45
    else if AcceptedIn(xs) == 0 then r == 0.55
    else
      var total, n := AcceptedConfidence(xs), AcceptedIn(xs) as real;
      && (total <= 0.5 * n ==> r == 0.45)
      && (total >= 0.9 * n ==> r == 0.85)
      && (0.5 * n < total < 0.9 * n ==> (r + 0.05) * n == total)
  }

  lemma AverageBounds(total: real, n: real)
    requires n > 0.0
    ensures total / n * n == total
    ensures total / n <= 0.5 <==> total <= 0.5 * n
    ensures total / n >= 0.9 <==> total >= 0.9 * n
  {
    var a := total / n;
    assert a * n == total;
    assert (a - 0.5) * n == total - 0.5 * n && (a - 0.9) * n == total - 0.9 * n;
    SignOfProduct(a - 0.5, n);
    SignOfProduct(a - 0.9, n);
  }

  lemma RecommendationMeans(xs: seq<Observation>)
    ensures IsRecommended(xs, RecommendedConfidence(xs))
  {
    FilterCounts(xs);
    if AcceptedIn(xs) > 0 {
      AverageBounds(AcceptedConfidence(xs), AcceptedIn(xs) as real);
    }
  }

  /** What the report says of the observations: how many there are, how many were accepted and at what
      rate, the recommended confidence, the leaps of the mints, and for each source its row. */
  lemma DiagnosticsMean(observations: seq<Observation>, mints: seq<string>, d: Diagnostics)
    requires IsDiagnostics(observations, mints, d)
    ensures d.observations == |observations| && d.accepted == AcceptedIn(observations)
    ensures d.rejected == |observations| - AcceptedIn(observations)
    ensures IsRate(d.acceptanceRate, AcceptedIn(observations) as real, |observations|)
    ensures IsRecommended(observations, d.recommended)
    ensures d.jumps == LeapsIn(Sort(observations, TimeKey()), mints)
    ensures forall i :: 0 <= i < |d.sources| ==> RowMeans(Sort(observations, TimeKey()), d.sources[i])
  {
    FilterCounts(observations);
    RatioIsRate(AcceptedIn(observations) as real, |observations|);
    RecommendationMeans(observations);
    var ordered := Sort(observations, TimeKey());
    var labels := Labels(ordered);
    TotalIsLeaps(ordered, mints);
    SortOrders(Rows(labels, ordered), CountKey());
    hide Ratio, Sort, RowMeans, RecommendedConfidence, IsRecommended, TotalJumps, Filter, Labels, BucketOf;
    forall i | 0 <= i < |d.sources|
      ensures RowMeans(ordered, d.sources[i])
    {
      assert d.sources[i] in multiset(d.sources);
      assert d.sources[i] in multiset(Rows(labels, ordered));
      var k: nat :| k < |Rows(labels, ordered)| && Rows(labels, ordered)[k] == d.sources[i];
      RowsMean(labels, ordered, k);
    }
  }
}
