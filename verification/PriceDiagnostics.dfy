/** The price diagnostics: one pass over the observations in time order counts impossible
    jumps, with one remembered price per mint, and fills a bucket per price source. */
module PriceDiagnostics {
  import opened Common
  import opened Options
  import opened StableSort

  datatype Observation = Observation(mint: string, observedAt: int, price: Option<real>, source: string,
                                     confidence: real, accepted: bool)

  datatype Bucket = Bucket(count: nat, accepted: nat, confidence: real)

  predicate Counts(o: Observation) {
    o.accepted && o.price.Some? && o.price.value != 0.0
  }

  function Abs(x: real): real {
    if x < 0.0 then -x else x
  }

  predicate IsJump(previous: real, price: real) {
    previous > 0.0 && Abs((price - previous) / previous) > 10.0
  }

  // ---------- what is counted ----------

  /** The accepted non-zero prices of one mint, in the order of the observations. */
  function Prices(xs: seq<Observation>, mint: string): seq<real> {
    if xs == [] then []
    else
      var o := xs[|xs| - 1];
      Prices(xs[..|xs| - 1], mint) + if Counts(o) && o.mint == mint then [o.price.value] else []
  }

  /** The adjacent pairs of a price history that are jumps. */
  function Jumps(ps: seq<real>): nat {
    if |ps| < 2 then 0
    else Jumps(ps[..|ps| - 1]) + if IsJump(ps[|ps| - 2], ps[|ps| - 1]) then 1 else 0
  }

  function TotalJumps(xs: seq<Observation>, mints: seq<string>): nat {
    if mints == [] then 0 else TotalJumps(xs, mints[..|mints| - 1]) + Jumps(Prices(xs, mints[|mints| - 1]))
  }

  function Label(o: Observation): string {
    if o.source == "" then "unknown" else o.source
  }

  /** The bucket of one source, computed on its own. */
  function BucketOf(xs: seq<Observation>, source: string): Bucket {
    if xs == [] then Bucket(0, 0, 0.0)
    else
      var o, b := xs[|xs| - 1], BucketOf(xs[..|xs| - 1], source);
      if Label(o) != source then b
      else Bucket(b.count + 1, b.accepted + (if o.accepted then 1 else 0), b.confidence + o.confidence)
  }

  // ---------- one more observation ----------

  lemma PricesSnoc(xs: seq<Observation>, o: Observation, mint: string)
    ensures Prices(xs + [o], mint) ==
      Prices(xs, mint) + if Counts(o) && o.mint == mint then [o.price.value] else []
  {
    assert (xs + [o])[..|xs|] == xs;
  }

  lemma JumpsSnoc(ps: seq<real>, p: real)
    ensures Jumps(ps + [p]) == Jumps(ps) + if ps != [] && IsJump(ps[|ps| - 1], p) then 1 else 0
  {
    hide IsJump;
    assert (ps + [p])[..|ps|] == ps;
  }

  /** The jump that an observation completes, given the prices before it. */
  function NewJump(before: seq<real>, o: Observation): nat {
    if Counts(o) && before != [] && IsJump(before[|before| - 1], o.price.value) then 1 else 0
  }

  lemma {:induction false} TotalSnoc(xs: seq<Observation>, o: Observation, mints: seq<string>)
    requires NoRepeats(mints)
    ensures TotalJumps(xs + [o], mints) ==
      TotalJumps(xs, mints) + if o.mint in mints then NewJump(Prices(xs, o.mint), o) else 0
    decreases |mints|
  {
    hide IsJump;
    if mints != [] {
      var init, last := mints[..|mints| - 1], mints[|mints| - 1];
      TotalSnoc(xs, o, init);
      PricesSnoc(xs, o, last);
      assert mints == init + [last];
      assert last !in init;
      if o.mint == last && Counts(o) {
        JumpsSnoc(Prices(xs, last), o.price.value);
      } else {
        assert Prices(xs + [o], last) == Prices(xs, last);
      }
    }
  }

  lemma BucketSnoc(xs: seq<Observation>, o: Observation, source: string)
    ensures BucketOf(xs + [o], source) ==
      var b := BucketOf(xs, source);
      if Label(o) != source then b
      else Bucket(b.count + 1, b.accepted + (if o.accepted then 1 else 0), b.confidence + o.confidence)
  {
    assert (xs + [o])[..|xs|] == xs;
  }

  /** The labels in order of first appearance: the insertion order of the dictionary. */
  function Labels(xs: seq<Observation>): (ls: seq<string>)
    ensures NoRepeats(ls)
    ensures forall i :: 0 <= i < |xs| ==> Label(xs[i]) in ls
  {
    if xs == [] then []
    else
      var ls, l := Labels(xs[..|xs| - 1]), Label(xs[|xs| - 1]);
      if l in ls then ls else ls + [l]
  }

  lemma LabelsSnoc(xs: seq<Observation>, o: Observation)
    ensures Labels(xs + [o]) == if Label(o) in Labels(xs) then Labels(xs) else Labels(xs) + [Label(o)]
  {
    assert (xs + [o])[..|xs|] == xs;
  }

  datatype Row = Row(source: string, count: nat, accepted: nat, acceptanceRate: real, averageConfidence: real)

  datatype Diagnostics = Diagnostics(observations: nat, accepted: nat, rejected: nat, acceptanceRate: real,
                                     jumps: nat, sources: seq<Row>, recommended: real)

  function IsAccepted(): Observation -> bool {
    (o: Observation) => o.accepted
  }

  function AcceptedCount(xs: seq<Observation>): nat {
    |Filter(xs, IsAccepted())|
  }

  /** A part of a whole of at least one. */
  function Ratio(part: real, whole: nat): real {
    part / (if whole == 0 then 1 else whole) as real
  }

  function RowOf(source: string, b: Bucket): Row {
    Row(source, b.count, b.accepted, Ratio(b.accepted as real, b.count), Ratio(b.confidence, b.count))
  }

  function Rows(labels: seq<string>, xs: seq<Observation>): seq<Row> {
    seq(|labels|, i requires 0 <= i < |labels| => RowOf(labels[i], BucketOf(xs, labels[i])))
  }

  function ConfidenceSum(xs: seq<Observation>): real {
    if xs == [] then 0.0 else xs[0].confidence + ConfidenceSum(xs[1..])
  }

  /** The confidence to ask for: slightly under the accepted average, within its limits. */
  function RecommendedConfidence(xs: seq<Observation>): (r: real)
    ensures 0.45 <= r <= 0.85
  {
    var accepted := Filter(xs, IsAccepted());
    if xs == [] then 0.45
    else if accepted == [] then 0.55
    else
      var wanted := Ratio(ConfidenceSum(accepted), |accepted|) - 0.05;
      if wanted < 0.45 then 0.45 else if wanted > 0.85 then 0.85 else wanted
  }

  function TimeKey(): Observation -> int {
    (o: Observation) => o.observedAt
  }

  function OfMint(mint: string): Observation -> bool {
    (o: Observation) => o.mint == mint
  }

  function CountKey(): Row -> int {
    (r: Row) => (0 as int) - r.count
  }

  /** The single pass: a dictionary of buckets, in insertion order, and a last-price map. */
  method Scan(xs: seq<Observation>, ghost mints: seq<string>)
    returns (jumps: nat, labels: seq<string>, buckets: map<string, Bucket>)
    requires NoRepeats(mints) && forall i :: 0 <= i < |xs| ==> xs[i].mint in mints
    ensures jumps == TotalJumps(xs, mints)
    ensures labels == Labels(xs) && (forall l :: l in labels <==> l in buckets)
    ensures forall l :: l in buckets ==> buckets[l] == BucketOf(xs, l)
  {
    hide IsJump, Prices, Jumps, BucketOf, TotalJumps, LastPrices, Bucketed, Labels, NewJump, AddTo;
    jumps, labels, buckets := 0, [], map[];
    var previous: map<string, real> := map[];
    NothingYet(mints);
    for k := 0 to |xs|
      invariant jumps == TotalJumps(xs[..k], mints)
      invariant LastPrices(previous, xs[..k])
      invariant labels == Labels(xs[..k]) && forall l :: l in labels <==> l in buckets
      invariant Bucketed(buckets, xs[..k])
    {
      var item := xs[k];
      assert xs[..k + 1] == xs[..k] + [item];
      LabelsSnoc(xs[..k], item);
      BucketsSnoc(buckets, xs[..k], item);
      LastPricesSnoc(previous, xs[..k], item);
      JumpIsKnown(previous, xs[..k], item);
      TotalSnoc(xs[..k], item, mints);
      var source := Label(item);
      ghost var earlier := buckets;
      if source !in buckets {
        labels := labels + [source];
        buckets := buckets[source := Bucket(0, 0, 0.0)];
      }
      buckets := buckets[source := AddTo(buckets[source], item)];
      assert buckets ==
             earlier[source := AddTo(if source in earlier then earlier[source] else Bucket(0, 0, 0.0), item)];
      if Counts(item) && item.mint in previous {
        if IsJump(previous[item.mint], item.price.value) {
          jumps := jumps + 1;
        }
      }
      if Counts(item) {
        previous := previous[item.mint := item.price.value];
      }
    }
    assert xs[..|xs|] == xs;
    BucketsAre(buckets, xs);
  }

  lemma BucketsAre(buckets: map<string, Bucket>, xs: seq<Observation>)
    requires Bucketed(buckets, xs)
    ensures forall l :: l in buckets ==> buckets[l] == BucketOf(xs, l)
  {
  }

  lemma JumpIsKnown(previous: map<string, real>, xs: seq<Observation>, o: Observation)
    requires LastPrices(previous, xs)
    ensures NewJump(Prices(xs, o.mint), o) ==
      if Counts(o) && o.mint in previous && IsJump(previous[o.mint], o.price.value) then 1 else 0
  {
    hide IsJump;
  }

  function AddTo(b: Bucket, o: Observation): Bucket {
    Bucket(b.count + 1, b.accepted + (if o.accepted then 1 else 0), b.confidence + o.confidence)
  }

  /** The map holds the last counted price of exactly the mints that have one. */
  ghost predicate LastPrices(previous: map<string, real>, xs: seq<Observation>) {
    forall m :: (m in previous <==> Prices(xs, m) != []) &&
      (m in previous ==> previous[m] == Prices(xs, m)[|Prices(xs, m)| - 1])
  }

  ghost predicate Bucketed(buckets: map<string, Bucket>, xs: seq<Observation>) {
    forall l :: if l in buckets then buckets[l] == BucketOf(xs, l) else BucketOf(xs, l) == Bucket(0, 0, 0.0)
  }

  lemma LastPricesSnoc(previous: map<string, real>, xs: seq<Observation>, o: Observation)
    requires LastPrices(previous, xs)
    ensures LastPrices(if Counts(o) then previous[o.mint := o.price.value] else previous, xs + [o])
  {
    forall m
      ensures Prices(xs + [o], m) == Prices(xs, m) + if Counts(o) && o.mint == m then [o.price.value] else []
    {
      PricesSnoc(xs, o, m);
    }
  }

  lemma BucketsSnoc(buckets: map<string, Bucket>, xs: seq<Observation>, o: Observation)
    requires Bucketed(buckets, xs)
    ensures var before := if Label(o) in buckets then buckets[Label(o)] else Bucket(0, 0, 0.0);
      Bucketed(buckets[Label(o) := AddTo(before, o)], xs + [o])
  {
    forall l
      ensures BucketOf(xs + [o], l) == if Label(o) == l then AddTo(BucketOf(xs, l), o) else BucketOf(xs, l)
    {
      BucketSnoc(xs, o, l);
    }
  }

  lemma {:induction false} NothingYet(mints: seq<string>)
    ensures TotalJumps([], mints) == 0 && LastPrices(map[], []) && Bucketed(map[], []) && Labels([]) == []
    decreases |mints|
  {
    if mints != [] {
      NothingYet(mints[..|mints| - 1]);
    }
  }

  ghost predicate IsDiagnostics(observations: seq<Observation>, mints: seq<string>, d: Diagnostics) {
    var ordered := Sort(observations, TimeKey());
    && d.observations == |observations| && d.accepted == AcceptedCount(observations)
    && d.rejected == |observations| - d.accepted
    && d.acceptanceRate == Ratio(d.accepted as real, |observations|)
    && d.recommended == RecommendedConfidence(observations)
    && d.jumps == TotalJumps(ordered, mints)
    && d.sources == Sort(Rows(Labels(ordered), ordered), CountKey())
  }

  lemma SortKeepsMints(observations: seq<Observation>, mints: seq<string>)
    requires forall i :: 0 <= i < |observations| ==> observations[i].mint in mints
    ensures forall o :: o in Sort(observations, TimeKey()) ==> o.mint in mints
  {
    SortOrders(observations, TimeKey());
    forall o | o in Sort(observations, TimeKey())
      ensures o.mint in mints
    {
      assert o in multiset(Sort(observations, TimeKey()));
      assert o in multiset(observations);
    }
  }

  /** The rows of the dictionary, in its order, with their rates. */
  method ListRows(labels: seq<string>, buckets: map<string, Bucket>, ghost xs: seq<Observation>)
    returns (rows: seq<Row>)
    requires forall l :: l in labels ==> l in buckets && buckets[l] == BucketOf(xs, l)
    ensures rows == Rows(labels, xs)
  {
    hide BucketOf, Ratio;
    rows := [];
    for i := 0 to |labels|
      invariant |rows| == i && forall j :: 0 <= j < i ==> rows[j] == Rows(labels, xs)[j]
    {
      var stats := buckets[labels[i]];
      var rate, average := Ratio(stats.accepted as real, stats.count), Ratio(stats.confidence, stats.count);
      rows := rows + [Row(labels[i], stats.count, stats.accepted, rate, average)];
    }
  }

  /** `mints` is any list of the mints concerned, each once; by `JumpsAreOfTheMints` the count
      does not depend on which. */
  method Diagnose(observations: seq<Observation>, ghost mints: seq<string>) returns (d: Diagnostics)
    requires NoRepeats(mints) && forall i :: 0 <= i < |observations| ==> observations[i].mint in mints
    ensures IsDiagnostics(observations, mints, d)
  {
    var ordered := Sort(observations, TimeKey());
    SortKeepsMints(observations, mints);
    var jumps, labels, buckets := Scan(ordered, mints);
    var rows := ListRows(labels, buckets, ordered);
    var n, accepted := |observations|, AcceptedCount(observations);
    hide BucketOf, TotalJumps, Labels, Rows, Ratio, Sort, RecommendedConfidence, Filter;
    d := Diagnostics(n, accepted, n - accepted, Ratio(accepted as real, n), jumps, Sort(rows, CountKey()),
                     RecommendedConfidence(observations));
  }

  // ---------- what the numbers mean ----------

  lemma {:induction false} PricesAreOfTheMint(xs: seq<Observation>, mint: string)
    ensures Prices(Filter(xs, OfMint(mint)), mint) == Prices(xs, mint)
  {
    if xs != [] {
      var init, o := xs[..|xs| - 1], xs[|xs| - 1];
      var p := OfMint(mint);
      assert xs == init + [o];
      PricesAreOfTheMint(init, mint);
      FilterSnoc(init, o, p);
      PricesSnoc(init, o, mint);
      if o.mint == mint {
        assert Filter(xs, p) == Filter(init, p) + [o];
        PricesSnoc(Filter(init, p), o, mint);
      } else {
        assert Filter(xs, p) == Filter(init, p);
      }
    }
  }

  lemma {:induction false} FilterSnoc<T>(xs: seq<T>, x: T, p: T -> bool)
    ensures Filter(xs + [x], p) == Filter(xs, p) + if p(x) then [x] else []
  {
    if xs == [] {
      assert ([x])[1..] == [];
    } else {
      assert (xs + [x])[1..] == xs[1..] + [x];
      FilterSnoc(xs[1..], x, p);
    }
  }

  /** The price history in the shared pass is the mint's own history: its own observations,
      put in time order on their own. */
  lemma OwnHistory(observations: seq<Observation>, mint: string)
    ensures Prices(Sort(observations, TimeKey()), mint) ==
            Prices(Sort(Filter(observations, OfMint(mint)), TimeKey()), mint)
  {
    var p := OfMint(mint);
    PricesAreOfTheMint(Sort(observations, TimeKey()), mint);
    SortCommutesWithFilter(observations, TimeKey(), p);
  }

  /** The count of jumps is the same for all lists of the mints concerned. */
  lemma {:induction false} JumpsAreOfTheMints(xs: seq<Observation>, mints: seq<string>, others: seq<string>)
    requires NoRepeats(mints) && NoRepeats(others)
    requires forall i :: 0 <= i < |xs| ==> xs[i].mint in mints && xs[i].mint in others
    ensures TotalJumps(xs, mints) == TotalJumps(xs, others)
    decreases |xs|
  {
    hide TotalJumps, Jumps, NewJump;
    if xs == [] {
      NothingYet(mints);
      NothingYet(others);
    } else {
      var init, o := xs[..|xs| - 1], xs[|xs| - 1];
      assert xs == init + [o];
      JumpsAreOfTheMints(init, mints, others);
      TotalSnoc(init, o, mints);
      TotalSnoc(init, o, others);
    }
  }

  // ---------- the source rows ----------

  /** What a row counts: its observations, or its accepted ones. */
  function Weight(r: Row, accepted: bool): nat {
    if accepted then r.accepted else r.count
  }

  function SumOf(rows: seq<Row>, accepted: bool): nat {
    if rows == [] then 0 else Weight(rows[0], accepted) + SumOf(rows[1..], accepted)
  }

  function Gain(o: Observation, accepted: bool): nat {
    if accepted && !o.accepted then 0 else 1
  }

  function Total(xs: seq<Observation>, accepted: bool): nat {
    if accepted then AcceptedCount(xs) else |xs|
  }

  lemma {:induction false} SumInsert(r: Row, rows: seq<Row>, accepted: bool)
    ensures SumOf(Insert(r, rows, CountKey()), accepted) == Weight(r, accepted) + SumOf(rows, accepted)
  {
    if rows == [] || rows[0].count <= r.count {
      assert ([r] + rows)[1..] == rows;
    } else {
      SumInsert(r, rows[1..], accepted);
      assert ([rows[0]] + Insert(r, rows[1..], CountKey()))[1..] == Insert(r, rows[1..], CountKey());
    }
  }

  lemma {:induction false} SumSort(rows: seq<Row>, accepted: bool)
    ensures SumOf(Sort(rows, CountKey()), accepted) == SumOf(rows, accepted)
  {
    if rows != [] {
      SumSort(rows[1..], accepted);
      SumInsert(rows[0], Sort(rows[1..], CountKey()), accepted);
    }
  }

  lemma {:induction false} SumSnoc(rows: seq<Row>, r: Row, accepted: bool)
    ensures SumOf(rows + [r], accepted) == SumOf(rows, accepted) + Weight(r, accepted)
  {
    if rows != [] {
      assert (rows + [r])[1..] == rows[1..] + [r];
      SumSnoc(rows[1..], r, accepted);
    }
  }

  /** One observation adds its own to the total of any labels that include its own. */
  lemma {:induction false} RowsSnoc(labels: seq<string>, xs: seq<Observation>, o: Observation, accepted: bool)
    requires NoRepeats(labels)
    ensures SumOf(Rows(labels, xs + [o]), accepted) ==
      SumOf(Rows(labels, xs), accepted) + if Label(o) in labels then Gain(o, accepted) else 0
    decreases |labels|
  {
    hide Ratio;
    if labels != [] {
      var init, last := labels[..|labels| - 1], labels[|labels| - 1];
      RowsSnoc(init, xs, o, accepted);
      assert labels == init + [last];
      BucketSnoc(xs, o, last);
      RowsSplit(init, last, xs, accepted);
      RowsSplit(init, last, xs + [o], accepted);
    }
  }

  lemma RowsSplit(init: seq<string>, last: string, xs: seq<Observation>, accepted: bool)
    ensures SumOf(Rows(init + [last], xs), accepted) ==
      SumOf(Rows(init, xs), accepted) + Weight(RowOf(last, BucketOf(xs, last)), accepted)
  {
    var r := RowOf(last, BucketOf(xs, last));
    assert Rows(init + [last], xs) == Rows(init, xs) + [r];
    SumSnoc(Rows(init, xs), r, accepted);
  }

  lemma {:induction false} RowsCoverAll(xs: seq<Observation>, accepted: bool)
    ensures SumOf(Rows(Labels(xs), xs), accepted) == Total(xs, accepted)
  {
    hide Ratio, BucketOf;
    if xs != [] {
      var init, o := xs[..|xs| - 1], xs[|xs| - 1];
      assert xs == init + [o];
      FilterSnoc(init, o, IsAccepted());
      RowsCoverAll(init, accepted);
      LabelsSnoc(init, o);
      RowsSnoc(Labels(xs), init, o, accepted);
      if Label(o) !in Labels(init) {
        RowsSplit(Labels(init), Label(o), init, accepted);
        AbsentLabel(init, Label(o));
      }
    }
  }

  lemma {:induction false} AbsentLabel(xs: seq<Observation>, l: string)
    requires l !in Labels(xs)
    ensures BucketOf(xs, l) == Bucket(0, 0, 0.0)
  {
    if xs != [] {
      AbsentLabel(xs[..|xs| - 1], l);
    }
  }

  /** The source rows come largest first; together they count every observation once, and
      every accepted one once. */
  lemma SourcesCountEverything(observations: seq<Observation>, mints: seq<string>, d: Diagnostics)
    requires IsDiagnostics(observations, mints, d)
    ensures SumOf(d.sources, false) == d.observations == d.accepted + d.rejected
    ensures SumOf(d.sources, true) == d.accepted
    ensures forall i, j :: 0 <= i < j < |d.sources| ==> d.sources[i].count >= d.sources[j].count
  {
    hide Ratio;
    var ordered := Sort(observations, TimeKey());
    var rows := Rows(Labels(ordered), ordered);
    RowsCoverAll(ordered, false);
    RowsCoverAll(ordered, true);
    SumSort(rows, false);
    SumSort(rows, true);
    SortCommutesWithFilter(observations, TimeKey(), IsAccepted());
    SortOrders(rows, CountKey());
    assert forall i, j :: 0 <= i < j < |d.sources| ==> CountKey()(d.sources[i]) <= CountKey()(d.sources[j]);
  }
}
