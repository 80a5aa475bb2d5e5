/** The figures calculate_session_results reports for a session, and the laws between them. */
module Summaries {
  import opened MachineInts
  import opened Wrappers
  import opened Time
  import opened Packets
  import opened Sorting
  import opened Loss
  import opened Sessions
  import opened SenderRuns
  import opened Statistics

  function Value(x: int): int {
    x
  }

  /** `(percentile / 100 * (len - 1)).round()`, halves rounding up. */
  function PercentileIndex(n: nat, percentile: real): int
    requires n > 0
  {
    (percentile / 100.0 * (n - 1) as real + 0.5).Floor
  }

  lemma PercentileInRange(n: nat, percentile: real)
    requires n > 0 && 0.0 <= percentile <= 100.0
    ensures 0 <= PercentileIndex(n, percentile) < n
  {
    ShareWithin(percentile / 100.0, (n - 1) as real);
  }

  lemma ShareWithin(share: real, m: real)
    requires 0.0 <= share <= 1.0 && m >= 0.0
    ensures 0.0 <= share * m <= m
  {
  }

  /** The index is a nearest one to the exact position, and a larger percentile never picks an earlier one. */
  lemma PercentileNearestAndMonotone(n: nat, p: real, q: real)
    requires n > 0 && 0.0 <= p <= q <= 100.0
    ensures -0.5 < PercentileIndex(n, p) as real - p / 100.0 * (n - 1) as real <= 0.5
    ensures PercentileIndex(n, p) <= PercentileIndex(n, q)
  {
    ShareMonotone(p / 100.0, q / 100.0, (n - 1) as real);
  }

  lemma ShareMonotone(x: real, y: real, m: real)
    requires x <= y && m >= 0.0
    ensures x * m <= y * m
  {
  }

  function Percentile(v: seq<int>, percentile: real): Option<int>
    requires 0.0 <= percentile <= 100.0
  {
    if v == [] then None
    else
      PercentileInRange(|v|, percentile);
      Some(v[PercentileIndex(|v|, percentile)])
  }

  function Median(v: seq<int>): (m: Option<real>)
    ensures v != [] ==> m == Some((v[(|v| - 1) / 2] + v[|v| / 2]) as real / 2.0)
  {
    if v == [] then None
    else
      var mid := |v| / 2;
      if |v| % 2 == 0 then Some((v[mid - 1] + v[mid]) as real / 2.0) else Some(v[mid] as real)
  }

  function Square(x: real): real {
    x * x
  }

  function SquaredDeviations(v: seq<int>, mean: real): real {
    if v == [] then 0.0
    else SquaredDeviations(v[..|v| - 1], mean) + Square(v[|v| - 1] as real - mean)
  }

  /** The square of calculate_std_dev. */
  function Variance(v: seq<int>, mean: real): Option<real> {
    if v == [] then None else Some(SquaredDeviations(v, mean) / |v| as real)
  }

  function Average(sum: int, count: nat): Option<real> {
    if count > 0 then Some(sum as real / count as real) else None
  }

  function Mean(sum: int, count: nat): real {
    if count > 0 then sum as real / count as real else 0.0
  }

  /** The figures of one metric. */
  datatype Metric = Metric(
    avg: Option<real>,
    min: Option<int>,
    max: Option<int>,
    variance: Option<real>,
    median: Option<real>,
    low: Option<int>,
    high: Option<int>)

  datatype NetworkStatistics = NetworkStatistics(
    rtt: Metric,
    forward: Metric,
    backward: Metric,
    process: Metric,
    avgForwardJitter: Option<real>,
    avgBackwardJitter: Option<real>,
    varianceForwardJitter: Option<real>,
    varianceBackwardJitter: Option<real>,
    forwardLoss: u32,
    backwardLoss: u32,
    totalLoss: u32,
    totalPackets: nat)

  function MetricOf(sorted: seq<int>, sum: int, count: nat): Metric {
    Metric(
      Average(sum, count),
      if sorted == [] then None else Some(sorted[0]),
      if sorted == [] then None else Some(sorted[|sorted| - 1]),
      Variance(sorted, Mean(sum, count)),
      Median(sorted),
      Percentile(sorted, 25.0),
      Percentile(sorted, 75.0))
  }

  /** The metric of a sample, whatever way it was sorted. */
  ghost predicate Summarizes(m: Metric, v: seq<int>, sum: int, count: nat) {
    exists sorted :: IsSortOf(sorted, v, Value) && m == MetricOf(sorted, sum, count)
  }

  method Summarize(v: seq<int>, sum: int, count: nat) returns (m: Metric)
    ensures Summarizes(m, v, sum, count)
  {
    var sorted := SortUnstable(v, Value);
    m := MetricOf(sorted, sum, count);
  }

  /** The figures do not depend on how the sort breaks ties. */
  lemma SummaryIsUnique(m1: Metric, m2: Metric, v: seq<int>, sum: int, count: nat)
    requires Summarizes(m1, v, sum, count) && Summarizes(m2, v, sum, count)
    ensures m1 == m2
  {
    var s1 :| IsSortOf(s1, v, Value) && m1 == MetricOf(s1, sum, count);
    var s2 :| IsSortOf(s2, v, Value) && m2 == MetricOf(s2, sum, count);
    SortIsUnique(s1, s2, Value);
  }

  lemma {:induction false} SumInsert(v: seq<int>, k: nat)
    requires k < |v|
    ensures Sum(v) == Sum(v[..k] + v[k + 1..]) + v[k]
  {
    if k < |v| - 1 {
      var front, last := v[..|v| - 1], v[|v| - 1];
      SumInsert(front, k);
      var rest := v[..k] + v[k + 1..];
      assert rest[..|rest| - 1] == front[..k] + front[k + 1..] && rest[|rest| - 1] == last;
    } else {
      assert v[..k] + v[k + 1..] == v[..|v| - 1];
    }
  }

  /** A sum does not depend on the order of its terms. */
  lemma {:induction false} SumOfSort(r: seq<int>, v: seq<int>)
    requires multiset(r) == multiset(v)
    ensures Sum(r) == Sum(v) && |r| == |v|
  {
    SameElements(r, v);
    if r != [] {
      var k := WhereLast(r, v);
      SumInsert(v, k);
      SumOfSort(r[..|r| - 1], v[..k] + v[k + 1..]);
    }
  }

  lemma WhereLast(r: seq<int>, v: seq<int>) returns (k: nat)
    requires r != [] && multiset(r) == multiset(v)
    ensures k < |v| && v[k] == r[|r| - 1]
    ensures multiset(r[..|r| - 1]) == multiset(v[..k] + v[k + 1..])
  {
    SameElements(r, v);
    var last := r[|r| - 1];
    assert last in v;
    k :| 0 <= k < |v| && v[k] == last;
    RemoveAt(v, k);
    RemoveAt(r, |r| - 1);
    assert r[..|r| - 1] + r[|r| - 1 + 1..] == r[..|r| - 1];
  }

  lemma RemoveAt<T>(v: seq<T>, k: nat)
    requires k < |v|
    ensures multiset(v[..k] + v[k + 1..]) == multiset(v) - multiset{v[k]}
  {
    assert v == v[..k] + [v[k]] + v[k + 1..];
  }

  /** What a report says about the delays of a session's packets. */
  ghost predicate ReportsDelays(r: NetworkStatistics, results: seq<PacketResults>) {
    var ps := Measured(results);
    && r.totalPackets == |ps|
    && Summarizes(r.rtt, Collect(ps, RttNanos), Sum(Collect(ps, RttNanos)), |ps|)
    && Summarizes(r.forward, Collect(ps, ForwardNanos), Sum(Collect(ps, ForwardNanos)), |ps|)
    && Summarizes(r.backward, Collect(ps, BackwardNanos), Sum(Collect(ps, BackwardNanos)), |ps|)
    && Summarizes(r.process, Collect(ps, ProcessNanos), Sum(Collect(ps, ProcessNanos)), |ps|)
  }

  /** The same in terms of the samples alone. */
  ghost predicate ReportsFigures(r: NetworkStatistics, results: seq<PacketResults>) {
    var ps := Measured(results);
    && IsFigureOf(r.rtt, Collect(ps, RttNanos), Sum(Collect(ps, RttNanos)), |ps|)
    && IsFigureOf(r.forward, Collect(ps, ForwardNanos), Sum(Collect(ps, ForwardNanos)), |ps|)
    && IsFigureOf(r.backward, Collect(ps, BackwardNanos), Sum(Collect(ps, BackwardNanos)), |ps|)
    && IsFigureOf(r.process, Collect(ps, ProcessNanos), Sum(Collect(ps, ProcessNanos)), |ps|)
  }

  lemma DelaysAreFigures(r: NetworkStatistics, results: seq<PacketResults>)
    requires ReportsDelays(r, results)
    ensures ReportsFigures(r, results)
  {
    var ps := Measured(results);
    hide Summarizes, IsFigureOf, Collect, Sum, Measured, RttNanos, ForwardNanos, BackwardNanos, ProcessNanos;
    SummarizesFigures(r.rtt, Collect(ps, RttNanos), Sum(Collect(ps, RttNanos)), |ps|);
    SummarizesFigures(r.forward, Collect(ps, ForwardNanos), Sum(Collect(ps, ForwardNanos)), |ps|);
    SummarizesFigures(r.backward, Collect(ps, BackwardNanos), Sum(Collect(ps, BackwardNanos)), |ps|);
    SummarizesFigures(r.process, Collect(ps, ProcessNanos), Sum(Collect(ps, ProcessNanos)), |ps|);
  }

  /** What a report says about their losses. */
  ghost predicate ReportsLosses(r: NetworkStatistics, results: seq<PacketResults>) {
    exists sorted :: IsSortOf(sorted, results, SenderSeq)
                     && (r.forwardLoss, r.backwardLoss, r.totalLoss) == LossesOf(sorted)
  }

  method CalculateSessionResults(session: Session) returns (r: NetworkStatistics)
    ensures ReportsDelays(r, session.results) && ReportsLosses(r, session.results)
    ensures ReportsFigures(r, session.results)
    ensures var ps := Measured(session.results);
            && IsSpreadOf(r.avgForwardJitter, r.varianceForwardJitter, Jitter(Collect(ps, ForwardNanos)))
            && IsSpreadOf(r.avgBackwardJitter, r.varianceBackwardJitter, Jitter(Collect(ps, BackwardNanos)))
  {
    hide Summarizes, Collect, Measured, LossesOf, Variance, Sum, Jitter, ReportsFigures, IsSpreadOf;
    var totalPackets := |Measured(session.results)|;
    var forwardLoss, backwardLoss, totalLoss := session.AnalyzePacketLoss();
    var s, sums := Accumulate(session.results);
    var rtt := Summarize(s.rtt, sums.rtt, totalPackets);
    var forward := Summarize(s.forward, sums.forward, totalPackets);
    var backward := Summarize(s.backward, sums.backward, totalPackets);
    var process := Summarize(s.process, sums.process, totalPackets);
    var sortedForward := SortUnstable(s.forwardJitter, Value);
    var sortedBackward := SortUnstable(s.backwardJitter, Value);
    var forwardSum, backwardSum := Sum(sortedForward), Sum(sortedBackward);
    SumOfSort(sortedForward, s.forwardJitter);
    SumOfSort(sortedBackward, s.backwardJitter);
    r := NetworkStatistics(
      rtt, forward, backward, process,
      Average(forwardSum, |sortedForward|),
      Average(backwardSum, |sortedBackward|),
      Variance(sortedForward, Mean(forwardSum, |sortedForward|)),
      Variance(sortedBackward, Mean(backwardSum, |sortedBackward|)),
      forwardLoss, backwardLoss, totalLoss, totalPackets);
    DelaysAreFigures(r, session.results);
    SpreadOfSort(sortedForward, s.forwardJitter);
    SpreadOfSort(sortedBackward, s.backwardJitter);
  }

  // ----- order statistics

  lemma QuartileIndices(n: nat)
    requires n > 0
    ensures PercentileIndex(n, 25.0) == (n + 1) / 4
    ensures PercentileIndex(n, 75.0) == (3 * n - 1) / 4
  {
  }

  lemma QuartilesOrdered(s: seq<int>)
    requires s != [] && SortedBy(s, Value)
    ensures s[0] <= Percentile(s, 25.0).value
    ensures Percentile(s, 25.0).value as real <= Median(s).value <= Percentile(s, 75.0).value as real
    ensures Percentile(s, 75.0).value <= s[|s| - 1]
  {
    var n := |s|;
    QuartileIndices(n);
    hide PercentileIndex;
    var low, high := (n + 1) / 4, (3 * n - 1) / 4;
    SortedAt(s, Value, 0, low);
    SortedAt(s, Value, low, (n - 1) / 2);
    SortedAt(s, Value, (n - 1) / 2, n / 2);
    SortedAt(s, Value, n / 2, high);
    SortedAt(s, Value, high, n - 1);
  }

  /** min <= 25th percentile <= median <= 75th percentile <= max for every non-empty sample,
      and min and max bound all of it. */
  lemma OrderStatistics(m: Metric, v: seq<int>, sum: int, count: nat)
    requires v != [] && Summarizes(m, v, sum, count)
    ensures m.min.Some? && m.low.Some? && m.median.Some? && m.high.Some? && m.max.Some?
    ensures m.min.value <= m.low.value
    ensures m.low.value as real <= m.median.value <= m.high.value as real
    ensures m.high.value <= m.max.value
    ensures m.min.value in v && m.max.value in v
    ensures forall x :: x in v ==> m.min.value <= x <= m.max.value
  {
    var s :| IsSortOf(s, v, Value) && m == MetricOf(s, sum, count);
    SameElements(s, v);
    assert v[0] in s;
    QuartilesOrdered(s);
    forall x | x in v ensures s[0] <= x <= s[|s| - 1] {
      var k :| 0 <= k < |s| && s[k] == x;
      SortedAt(s, Value, 0, k);
      SortedAt(s, Value, k, |s| - 1);
    }
    hide Percentile, Median, Variance, IsSortOf;
  }

  // ----- variance

  function SumOfSquares(v: seq<int>): real {
    if v == [] then 0.0 else SumOfSquares(v[..|v| - 1]) + Square(v[|v| - 1] as real)
  }

  /** Squared deviations from m of n values with sum s and square sum q. */
  function Expanded(q: real, s: real, n: real, m: real): real {
    q - 2.0 * m * s + n * m * m
  }

  lemma ExpandStep(q: real, s: real, n: real, x: real, m: real)
    ensures Expanded(q, s, n, m) + Square(x - m) == Expanded(q + Square(x), s + x, n + 1.0, m)
    ensures Square(x - m) >= 0.0
  {
    assert (x - m) * (x - m) == x * x - 2.0 * m * x + m * m;
    SquareNonNegative(x - m);
  }

  lemma SquareNonNegative(d: real)
    ensures Square(d) >= 0.0
  {
  }

  lemma ExpandedOfNothing(m: real)
    ensures Expanded(0.0, 0.0, 0.0, m) == 0.0
  {
  }

  lemma {:induction false} DeviationsExpand(v: seq<int>, mean: real)
    ensures SquaredDeviations(v, mean) == Expanded(SumOfSquares(v), Sum(v) as real, |v| as real, mean)
    ensures SquaredDeviations(v, mean) >= 0.0
  {
    hide Expanded, Square;
    if v == [] {
      ExpandedOfNothing(mean);
    } else {
      var front, x := v[..|v| - 1], v[|v| - 1];
      DeviationsExpand(front, mean);
      ExpandStep(SumOfSquares(front), Sum(front) as real, |front| as real, x as real, mean);
      assert |v| as real == |front| as real + 1.0;
      assert Sum(v) as real == Sum(front) as real + x as real;
    }
  }

  lemma ExpandedAtMean(q: real, s: real, n: real)
    requires n > 0.0
    ensures Expanded(q, s, n, s / n) / n == q / n - Square(s / n)
  {
  }

  lemma QuotientNonNegative(x: real, n: real)
    requires x >= 0.0 && n > 0.0
    ensures x / n >= 0.0
  {
  }

  /** Around the true mean the variance is the mean square minus the squared mean, and not negative. */
  lemma VarianceIsMeanSquareMinusSquaredMean(v: seq<int>)
    requires v != []
    ensures var mean := Mean(Sum(v), |v|);
            && Variance(v, mean) == Some(SumOfSquares(v) / |v| as real - Square(mean))
            && Variance(v, mean).value >= 0.0
  {
    var mean := Mean(Sum(v), |v|);
    DeviationsExpand(v, mean);
    ExpandedAtMean(SumOfSquares(v), Sum(v) as real, |v| as real);
    QuotientNonNegative(SquaredDeviations(v, mean), |v| as real);
    hide SquaredDeviations, SumOfSquares, Sum, Expanded, Square;
  }

  // ----- delay decomposition

  /** The four stamps of an answered packet. */
  predicate Complete(p: PacketResults) {
    p.t2.Some? && p.t3.Some? && p.t4.Some?
  }

  /** Neither clock ran backwards over the packet. */
  predicate InOrder(p: PacketResults) {
    && Complete(p)
    && ToNanos(p.t1) <= ToNanos(p.t4.value)
    && ToNanos(p.t2.value) <= ToNanos(p.t3.value)
  }

  /** How far the sender's clock ran backwards over a packet, and how far the reflector's did. */
  function LocalReversal(p: PacketResults): Option<int> {
    if Complete(p) then Some(Max(0, ToNanos(p.t1) - ToNanos(p.t4.value))) else None
  }

  function RemoteReversal(p: PacketResults): Option<int> {
    if Complete(p) then Some(Max(0, ToNanos(p.t2.value) - ToNanos(p.t3.value))) else None
  }

  lemma SampleValues(p: PacketResults)
    requires Complete(p)
    ensures RttNanos(p) == Some(Abs(ToNanos(p.t4.value) - ToNanos(p.t1)))
    ensures ForwardNanos(p) == Some(ToNanos(p.t2.value) - ToNanos(p.t1))
    ensures BackwardNanos(p) == Some(ToNanos(p.t4.value) - ToNanos(p.t3.value))
    ensures ProcessNanos(p) == Some(Abs(ToNanos(p.t3.value) - ToNanos(p.t2.value)))
  {
    DiffIsExact(p.t4.value, p.t1);
    DiffIsExact(p.t2.value, p.t1);
    DiffIsExact(p.t4.value, p.t3.value);
    DiffIsExact(p.t3.value, p.t2.value);
  }

  function Total(ps: seq<PacketResults>, sample: PacketResults -> Option<int>): int {
    Sum(Collect(ps, sample))
  }

  lemma TotalNext(ps: seq<PacketResults>, sample: PacketResults -> Option<int>)
    requires ps != [] && sample(ps[|ps| - 1]).Some?
    ensures Total(ps, sample) == Total(ps[..|ps| - 1], sample) + sample(ps[|ps| - 1]).value
    ensures |Collect(ps, sample)| == |Collect(ps[..|ps| - 1], sample)| + 1
  {
  }

  /** The identity behind the decomposition, for stamps in any order. */
  lemma {:induction false} TotalsBalance(ps: seq<PacketResults>)
    requires forall p :: p in ps ==> Complete(p)
    ensures Total(ps, ForwardNanos) + Total(ps, ProcessNanos) + Total(ps, BackwardNanos)
            == Total(ps, RttNanos) + 2 * Total(ps, RemoteReversal) - 2 * Total(ps, LocalReversal)
    ensures |Collect(ps, RttNanos)| == |Collect(ps, ForwardNanos)| == |Collect(ps, BackwardNanos)|
            == |Collect(ps, ProcessNanos)| == |ps|
  {
    if ps != [] {
      var p := ps[|ps| - 1];
      TotalsBalance(ps[..|ps| - 1]);
      SampleValues(p);
      TotalNext(ps, RttNanos);
      TotalNext(ps, ForwardNanos);
      TotalNext(ps, BackwardNanos);
      TotalNext(ps, ProcessNanos);
      TotalNext(ps, RemoteReversal);
      TotalNext(ps, LocalReversal);
      hide RttNanos, ForwardNanos, BackwardNanos, ProcessNanos, Total, Collect;
    }
  }

  /** The average round trip is the sum of the three other averages exactly when the two clocks
      ran backwards by the same amount in all; in particular when every t1 <= t4 and t2 <= t3. */
  lemma DelayDecomposesIff(ps: seq<PacketResults>)
    requires ps != [] && forall p :: p in ps ==> Complete(p)
    ensures Average(Total(ps, RttNanos), |ps|).value
            == Average(Total(ps, ForwardNanos), |ps|).value
               + Average(Total(ps, ProcessNanos), |ps|).value
               + Average(Total(ps, BackwardNanos), |ps|).value
            <==> Total(ps, RemoteReversal) == Total(ps, LocalReversal)
    ensures (forall p :: p in ps ==> InOrder(p)) ==>
            Total(ps, RemoteReversal) == Total(ps, LocalReversal) == 0
  {
    hide Total, Complete, InOrder, RttNanos, ForwardNanos, BackwardNanos, ProcessNanos, Collect;
    TotalsBalance(ps);
    if forall p :: p in ps ==> InOrder(p) {
      NoReversals(ps);
    }
    var f, p, b, r := Total(ps, ForwardNanos), Total(ps, ProcessNanos), Total(ps, BackwardNanos), Total(ps, RttNanos);
    AverageOfSum(f, p, b, |ps|);
    EqualAverages(r, f + p + b, |ps|);
  }

  lemma {:induction false} NoReversals(ps: seq<PacketResults>)
    requires forall p :: p in ps ==> InOrder(p)
    ensures Total(ps, RemoteReversal) == Total(ps, LocalReversal) == 0
  {
    if ps != [] {
      NoReversals(ps[..|ps| - 1]);
      assert InOrder(ps[|ps| - 1]);
      TotalNext(ps, RemoteReversal);
      TotalNext(ps, LocalReversal);
    }
  }

  lemma AverageOfSum(x: int, y: int, z: int, n: nat)
    requires n > 0
    ensures Average(x, n).value + Average(y, n).value + Average(z, n).value == Average(x + y + z, n).value
  {
  }

  lemma EqualAverages(x: int, y: int, n: nat)
    requires n > 0
    ensures Average(x, n).value == Average(y, n).value <==> x == y
  {
  }

  // ----- an offset between the clocks

  /** The same packet seen by a reflector whose clock is `offset` nanoseconds ahead. */
  predicate Shifted(p: PacketResults, q: PacketResults, offset: int) {
    && Complete(p) && Complete(q)
    && q.t1 == p.t1 && q.t4 == p.t4
    && ToNanos(q.t2.value) == ToNanos(p.t2.value) + offset
    && ToNanos(q.t3.value) == ToNanos(p.t3.value) + offset
  }

  ghost predicate Differ(ps: seq<PacketResults>, qs: seq<PacketResults>,
                         sample: PacketResults -> Option<int>, d: int) {
    && |ps| == |qs|
    && forall i :: 0 <= i < |ps| ==> sample(ps[i]).Some? && sample(qs[i]) == Some(sample(ps[i]).value + d)
  }

  /** Samples that all differ by d have totals that differ by d for each packet. */
  lemma {:induction false} TotalsDiffer(ps: seq<PacketResults>, qs: seq<PacketResults>,
                                        sample: PacketResults -> Option<int>, d: int)
    requires Differ(ps, qs, sample, d)
    ensures Total(qs, sample) == Total(ps, sample) + |ps| * d
  {
    if ps != [] {
      var k := |ps| - 1;
      TotalsDiffer(ps[..k], qs[..k], sample, d);
      TotalNext(ps, sample);
      TotalNext(qs, sample);
      hide Total;
      OneMore(k, d);
    }
  }

  lemma OneMore(k: nat, d: int)
    ensures (k + 1) * d == k * d + d
  {
  }

  /** A clock offset leaves round trip and processing totals alone and moves the one-way totals
      by opposite amounts. */
  lemma OffsetMovesTotals(ps: seq<PacketResults>, qs: seq<PacketResults>, offset: int)
    requires |ps| == |qs| && forall i :: 0 <= i < |ps| ==> Shifted(ps[i], qs[i], offset)
    ensures Total(qs, RttNanos) == Total(ps, RttNanos)
    ensures Total(qs, ProcessNanos) == Total(ps, ProcessNanos)
    ensures Total(qs, ForwardNanos) == Total(ps, ForwardNanos) + |ps| * offset
    ensures Total(qs, BackwardNanos) == Total(ps, BackwardNanos) - |ps| * offset
  {
    hide RttNanos, ForwardNanos, BackwardNanos, ProcessNanos, Shifted, Total, Differ;
    assert |ps| * 0 == 0 && |ps| * -offset == -(|ps| * offset);
    SamplesDiffer(ps, qs, offset);
    TotalsDiffer(ps, qs, RttNanos, 0);
    TotalsDiffer(ps, qs, ProcessNanos, 0);
    TotalsDiffer(ps, qs, ForwardNanos, offset);
    TotalsDiffer(ps, qs, BackwardNanos, -offset);
  }

  lemma SamplesDiffer(ps: seq<PacketResults>, qs: seq<PacketResults>, offset: int)
    requires |ps| == |qs| && forall i :: 0 <= i < |ps| ==> Shifted(ps[i], qs[i], offset)
    ensures Differ(ps, qs, RttNanos, 0) && Differ(ps, qs, ProcessNanos, 0)
    ensures Differ(ps, qs, ForwardNanos, offset) && Differ(ps, qs, BackwardNanos, -offset)
  {
    hide RttNanos, ForwardNanos, BackwardNanos, ProcessNanos, Shifted;
    forall i | 0 <= i < |ps|
      ensures RttNanos(ps[i]).Some? && RttNanos(qs[i]) == RttNanos(ps[i])
      ensures ProcessNanos(ps[i]).Some? && ProcessNanos(qs[i]) == ProcessNanos(ps[i])
      ensures ForwardNanos(ps[i]).Some? && ForwardNanos(qs[i]) == Some(ForwardNanos(ps[i]).value + offset)
      ensures BackwardNanos(ps[i]).Some? && BackwardNanos(qs[i]) == Some(BackwardNanos(ps[i]).value - offset)
    {
      OffsetMovesSamples(ps[i], qs[i], offset);
    }
  }

  lemma OffsetMovesSamples(p: PacketResults, q: PacketResults, offset: int)
    requires Shifted(p, q, offset)
    ensures RttNanos(p).Some? && ProcessNanos(p).Some? && ForwardNanos(p).Some? && BackwardNanos(p).Some?
    ensures RttNanos(q) == RttNanos(p) && ProcessNanos(q) == ProcessNanos(p)
    ensures ForwardNanos(q) == Some(ForwardNanos(p).value + offset)
    ensures BackwardNanos(q) == Some(BackwardNanos(p).value - offset)
  {
    SampleValues(p);
    SampleValues(q);
  }

  /** So an offset between the clocks cancels in the averages of round trip and processing time,
      and shows with opposite signs in the two one-way averages. */
  lemma OffsetMovesAverages(ps: seq<PacketResults>, qs: seq<PacketResults>, offset: int)
    requires ps != [] && |ps| == |qs| && forall i :: 0 <= i < |ps| ==> Shifted(ps[i], qs[i], offset)
    ensures Average(Total(qs, RttNanos), |qs|) == Average(Total(ps, RttNanos), |ps|)
    ensures Average(Total(qs, ProcessNanos), |qs|) == Average(Total(ps, ProcessNanos), |ps|)
    ensures Average(Total(qs, ForwardNanos), |qs|).value
            == Average(Total(ps, ForwardNanos), |ps|).value + offset as real
    ensures Average(Total(qs, BackwardNanos), |qs|).value
            == Average(Total(ps, BackwardNanos), |ps|).value - offset as real
  {
    hide Total, RttNanos, ForwardNanos, BackwardNanos, ProcessNanos, Shifted;
    OffsetMovesTotals(ps, qs, offset);
    AverageShift(Total(ps, ForwardNanos), offset, |ps|);
    assert |ps| * -offset == -(|ps| * offset);
    AverageShift(Total(ps, BackwardNanos), -offset, |ps|);
  }

  lemma AverageShift(x: int, offset: int, n: nat)
    requires n > 0
    ensures Average(x + n * offset, n).value == Average(x, n).value + offset as real
  {
    ProductAsReal(n, offset);
    SplitQuotient(x as real, offset as real, n as real);
  }

  lemma ProductAsReal(n: nat, d: int)
    ensures (n * d) as real == n as real * d as real
  {
  }

  lemma SplitQuotient(x: real, d: real, n: real)
    requires n > 0.0
    ensures (x + n * d) / n == x / n + d
  {
  }

  // ----- the figures in terms of the sample alone

  /** The total of f over a sample. */
  function SumBy(v: seq<int>, f: int -> int): int {
    if v == [] then 0 else SumBy(v[..|v| - 1], f) + f(v[|v| - 1])
  }

  function Below(x: int): int -> int {
    y => if y < x then 1 else 0
  }

  function AtMost(x: int): int -> int {
    y => if y <= x then 1 else 0
  }

  function SquareOf(y: int): int {
    y * y
  }

  lemma {:induction false} SumByInsert(v: seq<int>, f: int -> int, k: nat)
    requires k < |v|
    ensures SumBy(v, f) == SumBy(v[..k] + v[k + 1..], f) + f(v[k])
  {
    if k < |v| - 1 {
      var front, last := v[..|v| - 1], v[|v| - 1];
      SumByInsert(front, f, k);
      var rest := v[..k] + v[k + 1..];
      assert rest[..|rest| - 1] == front[..k] + front[k + 1..] && rest[|rest| - 1] == last;
    } else {
      assert v[..k] + v[k + 1..] == v[..|v| - 1];
    }
  }

  lemma {:induction false} SumByOfSort(r: seq<int>, v: seq<int>, f: int -> int)
    requires multiset(r) == multiset(v)
    ensures SumBy(r, f) == SumBy(v, f)
  {
    SameElements(r, v);
    if r != [] {
      var k := WhereLast(r, v);
      SumByInsert(v, f, k);
      SumByOfSort(r[..|r| - 1], v[..k] + v[k + 1..], f);
    }
  }

  /** x is the sample that comes at place k when the samples are put in order: no more than k are less,
      and more than k are no greater. */
  ghost predicate IsRank(v: seq<int>, k: int, x: int) {
    x in v && SumBy(v, Below(x)) <= k < SumBy(v, AtMost(x))
  }

  lemma {:induction false} FewBelow(s: seq<int>, k: nat, x: int)
    requires forall j :: k <= j < |s| ==> x <= s[j]
    ensures SumBy(s, Below(x)) <= k
  {
    if s != [] {
      FewBelow(s[..|s| - 1], Min(k, |s| - 1), x);
    }
  }

  lemma {:induction false} ManyAtMost(s: seq<int>, k: nat, x: int)
    requires k <= |s| && forall j :: 0 <= j < k ==> s[j] <= x
    ensures SumBy(s, AtMost(x)) >= k
  {
    if s != [] {
      ManyAtMost(s[..|s| - 1], Min(k, |s| - 1), x);
    }
  }

  lemma PlaceIsRank(s: seq<int>, v: seq<int>, k: nat)
    requires IsSortOf(s, v, Value) && k < |s|
    ensures IsRank(v, k, s[k])
  {
    forall j | k <= j < |s| ensures s[k] <= s[j] {
      SortedAt(s, Value, k, j);
    }
    forall j | 0 <= j < k + 1 ensures s[j] <= s[k] {
      SortedAt(s, Value, j, k);
    }
    FewBelow(s, k, s[k]);
    ManyAtMost(s, k + 1, s[k]);
    SumByOfSort(s, v, Below(s[k]));
    SumByOfSort(s, v, AtMost(s[k]));
    SameElements(s, v);
    assert s[k] in s;
  }

  lemma {:induction false} SquaresAdd(v: seq<int>)
    ensures SumOfSquares(v) == SumBy(v, SquareOf) as real
  {
    if v != [] {
      var x := v[|v| - 1];
      SquaresAdd(v[..|v| - 1]);
      assert Square(x as real) == (x * x) as real;
    }
  }

  lemma SquaresOfSort(r: seq<int>, v: seq<int>)
    requires multiset(r) == multiset(v)
    ensures SumOfSquares(r) == SumOfSquares(v)
  {
    SquaresAdd(r);
    SquaresAdd(v);
    SumByOfSort(r, v, SquareOf);
  }

  /** x is halfway between a and b, the samples in the middle. */
  ghost predicate Middles(v: seq<int>, a: int, b: int, x: real) {
    IsRank(v, (|v| - 1) / 2, a) && IsRank(v, |v| / 2, b) && x == (a + b) as real / 2.0
  }

  /** What the figures of a sample are: average, least and greatest, quartiles and median by rank, and the
      mean square less the squared mean where the average is that of the sample. */
  ghost predicate IsFigureOf(m: Metric, v: seq<int>, sum: int, count: nat) {
    var n := |v|;
    && m.avg == (if count == 0 then None else Some(sum as real / count as real))
    && (n == 0 ==> m.min == m.max == m.low == m.high == None && m.variance == m.median == None)
    && (n > 0 ==>
          && m.min.Some? && IsRank(v, 0, m.min.value)
          && m.max.Some? && IsRank(v, n - 1, m.max.value)
          && m.low.Some? && IsRank(v, (n + 1) / 4, m.low.value)
          && m.high.Some? && IsRank(v, (3 * n - 1) / 4, m.high.value)
          && m.median.Some? && exists a, b :: Middles(v, a, b, m.median.value))
    && (n > 0 && count == n && sum == Sum(v) ==>
          m.variance == Some(SumOfSquares(v) / n as real - Square(sum as real / n as real)))
  }

  lemma FigureRanks(s: seq<int>, v: seq<int>)
    requires v != [] && IsSortOf(s, v, Value)
    ensures var n := |v|;
            && |s| == n
            && IsRank(v, 0, s[0]) && IsRank(v, n - 1, s[n - 1])
            && IsRank(v, (n + 1) / 4, s[(n + 1) / 4]) && IsRank(v, (3 * n - 1) / 4, s[(3 * n - 1) / 4])
            && IsRank(v, (n - 1) / 2, s[(n - 1) / 2]) && IsRank(v, n / 2, s[n / 2])
  {
    var n := |v|;
    SameElements(s, v);
    hide IsRank, IsSortOf;
    PlaceIsRank(s, v, 0);
    PlaceIsRank(s, v, n - 1);
    PlaceIsRank(s, v, (n + 1) / 4);
    PlaceIsRank(s, v, (3 * n - 1) / 4);
    PlaceIsRank(s, v, (n - 1) / 2);
    PlaceIsRank(s, v, n / 2);
  }

  lemma FigureVariance(s: seq<int>, v: seq<int>)
    requires v != [] && IsSortOf(s, v, Value)
    ensures Variance(s, Mean(Sum(v), |v|)) == Some(SumOfSquares(v) / |v| as real - Square(Sum(v) as real / |v| as real))
  {
    SumOfSort(s, v);
    SquaresOfSort(s, v);
    VarianceIsMeanSquareMinusSquaredMean(s);
    hide SumOfSquares, Sum, Variance, Square, IsSortOf;
  }

  lemma FigurePlaces(s: seq<int>, v: seq<int>, sum: int, count: nat)
    requires v != [] && IsSortOf(s, v, Value)
    ensures var m, n := MetricOf(s, sum, count), |v|;
            && |s| == n
            && m.min == Some(s[0]) && m.max == Some(s[n - 1])
            && m.low == Some(s[(n + 1) / 4]) && m.high == Some(s[(3 * n - 1) / 4])
            && m.median == Some((s[(n - 1) / 2] + s[n / 2]) as real / 2.0)
  {
    SameElements(s, v);
    QuartileIndices(|v|);
    hide PercentileIndex, IsSortOf, Variance;
  }

  /** Average and squared deviation of a sample. */
  ghost predicate IsSpreadOf(avg: Option<real>, variance: Option<real>, v: seq<int>) {
    if v == [] then avg.None? && variance.None?
    else
      var mean := Sum(v) as real / |v| as real;
      avg == Some(mean) && variance == Some(SumOfSquares(v) / |v| as real - Square(mean))
  }

  lemma SpreadOfSort(s: seq<int>, v: seq<int>)
    requires IsSortOf(s, v, Value)
    ensures IsSpreadOf(Average(Sum(s), |s|), Variance(s, Mean(Sum(s), |s|)), v)
  {
    assert multiset(s) == multiset(v);
    hide SumOfSquares, Sum, Square, IsSortOf, SquaredDeviations;
    SumOfSort(s, v);
    if v != [] {
      FigureVariance(s, v);
      hide Variance;
    }
  }

  /** A report's metrics are these figures of their samples. */
  lemma SummarizesFigures(m: Metric, v: seq<int>, sum: int, count: nat)
    requires Summarizes(m, v, sum, count)
    ensures IsFigureOf(m, v, sum, count)
  {
    var s :| IsSortOf(s, v, Value) && m == MetricOf(s, sum, count);
    assert m.avg == Average(sum, count) && m.variance == Variance(s, Mean(sum, count));
    if v == [] {
      SameElements(s, v);
    } else {
      FigurePlaces(s, v, sum, count);
      FigureRanks(s, v);
      if count == |v| && sum == Sum(v) {
        FigureVariance(s, v);
      }
      hide IsRank, SumOfSquares, Sum, Variance, Square, MetricOf, IsSortOf;
      assert Middles(v, s[(|v| - 1) / 2], s[|v| / 2], m.median.value);
    }
  }

  // ----- conservation

  lemma {:induction false} MeasuredIsAnswered(ps: seq<PacketResults>)
    requires forall p :: p in ps ==> AllOrNone(p)
    ensures Measured(ps) == Answered(ps)
    ensures forall p :: p in Measured(ps) ==> Complete(p)
  {
    if ps != [] {
      MeasuredIsAnswered(ps[..|ps| - 1]);
      assert AllOrNone(ps[|ps| - 1]);
    }
  }

  /** In every reachable sender session the packets counted and the packets lost make up the packets
      sent, and each answered packet contributes one sample to each of the four metrics. */
  lemma PacketsConserved(s: SessionState, ticks: nat, sorted: seq<PacketResults>)
    requires SentInOrder(s, ticks) && ticks < TWO_32
    requires IsSortOf(sorted, s.results, SenderSeq)
    ensures var ps := Measured(s.results);
            && |ps| + LossesOf(sorted).2 == ticks
            && |Collect(ps, RttNanos)| == |Collect(ps, ForwardNanos)| == |Collect(ps, BackwardNanos)|
               == |Collect(ps, ProcessNanos)| == |ps|
  {
    MeasuredCounts(s, ticks);
    TotalLossOf(sorted, s.results);
    hide Measured, Answered, Collect, RttNanos, ForwardNanos, BackwardNanos, ProcessNanos, LossesOf, IsSortOf;
  }

  /** Packet conservation in every run: whichever way the records of a session are sorted. */
  lemma ConservedInEveryRun(rx: Address, targets: seq<Address>, steps: seq<Step>, i: nat, sorted: seq<PacketResults>)
    requires var w := Run(rx, targets, steps);
             && w.ticks < TWO_32 && i < |w.sessions|
             && IsSortOf(sorted, w.sessions[i].results, SenderSeq)
    ensures var w := Run(rx, targets, steps);
            var ps := Measured(w.sessions[i].results);
            && |ps| + LossesOf(sorted).2 == w.ticks
            && |Collect(ps, RttNanos)| == |Collect(ps, ForwardNanos)| == |Collect(ps, BackwardNanos)|
               == |Collect(ps, ProcessNanos)| == |ps|
  {
    EveryRunHasShape(rx, targets, steps);
    var w := Run(rx, targets, steps);
    assert SentInOrder(w.sessions[i], w.ticks);
    hide Run, SentInOrder, Shape, Measured, LossesOf, Collect;
    PacketsConserved(w.sessions[i], w.ticks, sorted);
  }

  /** In every run, what is reported for a session of the sender is consistent: packets counted plus
      packets lost are the packets sent, and as soon as one packet is counted the average round trip
      is the sum of the other averages exactly when both clocks ran backwards by the same total. */
  lemma ReportsAreConsistent(rx: Address, targets: seq<Address>, steps: seq<Step>, i: nat, r: NetworkStatistics)
    requires var w := Run(rx, targets, steps);
             && w.ticks < TWO_32 && i < |w.sessions|
             && ReportsDelays(r, w.sessions[i].results) && ReportsLosses(r, w.sessions[i].results)
    ensures r.totalPackets + r.totalLoss == Run(rx, targets, steps).ticks
    ensures r.totalPackets > 0 ==>
              var ps := Measured(Run(rx, targets, steps).sessions[i].results);
              && r.rtt.avg.Some? && r.forward.avg.Some? && r.process.avg.Some? && r.backward.avg.Some?
              && (r.rtt.avg.value == r.forward.avg.value + r.process.avg.value + r.backward.avg.value
                  <==> Total(ps, RemoteReversal) == Total(ps, LocalReversal))
  {
    EveryRunHasShape(rx, targets, steps);
    var w := Run(rx, targets, steps);
    assert SentInOrder(w.sessions[i], w.ticks);
    hide Run, SentInOrder, Shape, ReportsDelays, ReportsLosses, Measured, Total;
    CountsAreConsistent(w.sessions[i], w.ticks, r);
    AveragesAreConsistent(w.sessions[i], w.ticks, r);
  }

  lemma CountsAreConsistent(s: SessionState, ticks: nat, r: NetworkStatistics)
    requires SentInOrder(s, ticks) && ticks < TWO_32
    requires ReportsDelays(r, s.results) && ReportsLosses(r, s.results)
    ensures r.totalPackets + r.totalLoss == ticks
  {
    var sorted :| IsSortOf(sorted, s.results, SenderSeq)
                  && (r.forwardLoss, r.backwardLoss, r.totalLoss) == LossesOf(sorted);
    PacketsConserved(s, ticks, sorted);
    hide SentInOrder, LossesOf, IsSortOf, Summarizes, Collect, Measured;
  }

  lemma AveragesAreConsistent(s: SessionState, ticks: nat, r: NetworkStatistics)
    requires SentInOrder(s, ticks) && ReportsDelays(r, s.results)
    ensures r.totalPackets > 0 ==>
              var ps := Measured(s.results);
              && r.rtt.avg.Some? && r.forward.avg.Some? && r.process.avg.Some? && r.backward.avg.Some?
              && (r.rtt.avg.value == r.forward.avg.value + r.process.avg.value + r.backward.avg.value
                  <==> Total(ps, RemoteReversal) == Total(ps, LocalReversal))
  {
    var ps := Measured(s.results);
    AveragesReported(r, s.results);
    if r.totalPackets > 0 {
      forall p | p in s.results ensures AllOrNone(p) {
        var j :| 0 <= j < |s.results| && s.results[j] == p;
      }
      MeasuredIsAnswered(s.results);
      DelayDecomposesIff(ps);
    }
    hide SentInOrder, Measured, Answered, Collect, Sum, ReportsDelays, Total;
  }

  lemma AveragesReported(r: NetworkStatistics, results: seq<PacketResults>)
    requires ReportsDelays(r, results)
    ensures var ps := Measured(results);
            && r.totalPackets == |ps|
            && r.rtt.avg == Average(Total(ps, RttNanos), |ps|)
            && r.forward.avg == Average(Total(ps, ForwardNanos), |ps|)
            && r.process.avg == Average(Total(ps, ProcessNanos), |ps|)
            && r.backward.avg == Average(Total(ps, BackwardNanos), |ps|)
  {
    hide Measured, Collect, Sum, IsSortOf, RttNanos, ForwardNanos, BackwardNanos, ProcessNanos;
  }

  /** The four delays of an answered packet, from its instants. */
  ghost predicate AreDelaysOf(p: PacketResults, rtt: int, forward: int, backward: int, process: int) {
    && Complete(p)
    && rtt == Abs(ToNanos(p.t4.value) - ToNanos(p.t1))
    && forward == ToNanos(p.t2.value) - ToNanos(p.t1)
    && backward == ToNanos(p.t4.value) - ToNanos(p.t3.value)
    && process == Abs(ToNanos(p.t3.value) - ToNanos(p.t2.value))
  }

  /** Sample k of each metric is that delay of packet k. */
  ghost predicate SampledAt(ps: seq<PacketResults>, k: nat)
    requires k < |ps|
  {
    && |Collect(ps, RttNanos)| == |Collect(ps, ForwardNanos)| == |Collect(ps, BackwardNanos)|
       == |Collect(ps, ProcessNanos)| == |ps|
    && AreDelaysOf(ps[k], Collect(ps, RttNanos)[k], Collect(ps, ForwardNanos)[k], Collect(ps, BackwardNanos)[k],
                   Collect(ps, ProcessNanos)[k])
  }

  lemma CompleteHasDelays(p: PacketResults)
    requires Complete(p)
    ensures RttNanos(p).Some? && ForwardNanos(p).Some? && BackwardNanos(p).Some? && ProcessNanos(p).Some?
    ensures AreDelaysOf(p, RttNanos(p).value, ForwardNanos(p).value, BackwardNanos(p).value, ProcessNanos(p).value)
  {
    SampleValues(p);
    hide RttNanos, ForwardNanos, BackwardNanos, ProcessNanos;
  }

  lemma SamplesAt(ps: seq<PacketResults>, k: nat)
    requires k < |ps| && forall p :: p in ps ==> Complete(p)
    ensures SampledAt(ps, k)
  {
    hide Collect, RttNanos, ForwardNanos, BackwardNanos, ProcessNanos, AreDelaysOf;
    forall p | p in ps
      ensures RttNanos(p).Some? && ForwardNanos(p).Some? && BackwardNanos(p).Some? && ProcessNanos(p).Some?
    {
      CompleteHasDelays(p);
    }
    CompleteHasDelays(ps[k]);
    hide Complete;
    CollectAt(ps, RttNanos, k);
    CollectAt(ps, ForwardNanos, k);
    CollectAt(ps, BackwardNanos, k);
    CollectAt(ps, ProcessNanos, k);
  }

  /** In every run the packets a session is summarized over are its answered ones, and sample k of each
      metric is that delay of the k-th of them. */
  lemma SamplesAreDelays(rx: Address, targets: seq<Address>, steps: seq<Step>, i: nat, k: nat)
    requires i < |Run(rx, targets, steps).sessions|
    requires k < |Answered(Run(rx, targets, steps).sessions[i].results)|
    ensures var results := Run(rx, targets, steps).sessions[i].results;
            Measured(results) == Answered(results) && SampledAt(Measured(results), k)
  {
    var w := Run(rx, targets, steps);
    EveryRunHasShape(rx, targets, steps);
    hide Run;
    assert SentInOrder(w.sessions[i], w.ticks);
    hide Shape;
    AnsweredAreComplete(w.sessions[i], w.ticks);
    hide SentInOrder, SampledAt, Complete;
    SamplesAt(Measured(w.sessions[i].results), k);
  }

  lemma AnsweredAreComplete(s: SessionState, ticks: nat)
    requires SentInOrder(s, ticks)
    ensures Measured(s.results) == Answered(s.results)
    ensures forall p :: p in Measured(s.results) ==> Complete(p)
  {
    forall p | p in s.results ensures AllOrNone(p) {
      var j :| 0 <= j < |s.results| && s.results[j] == p;
    }
    MeasuredIsAnswered(s.results);
    hide Measured, Answered;
  }

  lemma TotalLossOf(r: seq<PacketResults>, s: seq<PacketResults>)
    requires multiset(r) == multiset(s) && |s| < TWO_32
    ensures LossesOf(r).2 == |s| - |Answered(s)|
  {
    hide LossesOf, Answered, ToU32;
    AnsweredOfPermutation(r, s);
    SameElements(r, s);
    TotalLoss(r);
    WrapNext(|s| - |Answered(s)|);
  }

  lemma TotalLoss(sorted: seq<PacketResults>)
    ensures LossesOf(sorted).2 == ToU32(|sorted| - |Answered(sorted)|)
  {
  }

  lemma MeasuredCounts(s: SessionState, ticks: nat)
    requires SentInOrder(s, ticks)
    ensures Measured(s.results) == Answered(s.results)
    ensures var ps := Measured(s.results);
            |Collect(ps, RttNanos)| == |Collect(ps, ForwardNanos)| == |Collect(ps, BackwardNanos)|
            == |Collect(ps, ProcessNanos)| == |ps|
  {
    forall p | p in s.results ensures AllOrNone(p) {
      var j :| 0 <= j < |s.results| && s.results[j] == p;
    }
    MeasuredIsAnswered(s.results);
    TotalsBalance(Measured(s.results));
    hide Total, Collect, RttNanos, ForwardNanos, BackwardNanos, ProcessNanos, Measured, Answered;
  }

  lemma {:induction false} AnsweredMultiplicity(ps: seq<PacketResults>, p: PacketResults)
    ensures multiset(Answered(ps))[p] == if IsAnswered(p) then multiset(ps)[p] else 0
  {
    if ps != [] {
      var front, last := ps[..|ps| - 1], ps[|ps| - 1];
      AnsweredMultiplicity(front, p);
      assert ps == front + [last];
      AnsweredAppend(front, last);
    }
  }

  lemma AnsweredOfPermutation(r: seq<PacketResults>, s: seq<PacketResults>)
    requires multiset(r) == multiset(s)
    ensures |Answered(r)| == |Answered(s)|
  {
    forall p ensures multiset(Answered(r))[p] == multiset(Answered(s))[p] {
      AnsweredMultiplicity(r, p);
      AnsweredMultiplicity(s, p);
    }
    assert multiset(Answered(r)) == multiset(Answered(s));
    SameElements(Answered(r), Answered(s));
  }
}
