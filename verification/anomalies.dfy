/** Anomaly detection over the admitted debits: the threshold
    `max(mean + 2·pstdev, 500.0)` and the scan of the ten largest debits. */
module Anomalies {
  import opened Options
  import opened Seqs
  import opened StableSort
  import opened Ledger

  /** The fixed floor of the threshold, 500.00 in cents. */
  const AnomalyFloor: int := 50000

  /** How many of the largest debits are examined (`[:10]`). */
  const TopN: nat := 10

  /** One element of the `anomalies` list of the findings. */
  datatype Anomaly = Anomaly(
    amount: int,
    description: Option<string>,
    merchant: Option<string>,
    postedAt: Option<string>,
    account: Option<string>)

  function MagnitudeKey(t: Tagged): int {
    Magnitude(t.txn)
  }

  function Magnitudes(ts: seq<Tagged>): seq<int> {
    Map(ts, MagnitudeKey)
  }

  // ---------------------------------------------------------------------
  // The threshold, in exact arithmetic.
  //
  // With n samples, S their sum and Q the sum of their squares, the mean is
  // S/n and n²·pvariance = n·Q − S². For an amount a, with d = n·a − S,
  //   a >= mean + 2·std   <==>   d >= 0 && d² >= 4·n²·pvariance,
  // which avoids the square root. ThresholdMatchesSource proves this against
  // the real-valued definitions.

  /** n² times the variance the source uses: pvariance for two or more
      samples, 0 for a single sample (`pstdev(...) if len(debits) > 1 else 0.0`). */
  function Spread(xs: seq<int>): int {
    if |xs| > 1 then |xs| * SumSquares(xs) - Sum(xs) * Sum(xs) else 0
  }

  /** `amt >= max(mean + 2 * std, 500.0)`. */
  predicate AtOrAboveThreshold(amt: int, xs: seq<int>) {
    var d := |xs| * amt - Sum(xs);
    amt >= AnomalyFloor && d >= 0 && d * d >= 4 * Spread(xs)
  }

  function IsFlagged(xs: seq<int>): Tagged -> bool {
    t => AtOrAboveThreshold(MagnitudeKey(t), xs)
  }

  /** Debits strictly larger than `m`. */
  function Above(m: int): Tagged -> bool {
    t => MagnitudeKey(t) > m
  }

  /** `sorted(debit_txns, key=abs amount, reverse=True)`: the debits by
      magnitude, largest first, ties in first-seen order. */
  function ByMagnitude(debits: seq<Tagged>): seq<Tagged> {
    SortDesc(debits, MagnitudeKey)
  }

  /** Since reaching the threshold is upward closed, scanning the ten
      largest keeps a prefix of them: the `min(10, K)` largest debits, K
      being the number of debits at or above the threshold. */
  lemma FlaggedPrefix(debits: seq<Tagged>)
    ensures var p := IsFlagged(Magnitudes(debits));
      Filter(Take(ByMagnitude(debits), TopN), p) == Take(ByMagnitude(debits), Min(TopN, Count(debits, p)))
  {
    var xs := Magnitudes(debits);
    var p := IsFlagged(xs);
    var s := ByMagnitude(debits);
    FlagMonotone(xs);
    DescendingPrefixClosed(s, MagnitudeKey, p);
    TakeFilterPrefixClosed(s, p, TopN);
    SortPreservesCount(debits, MagnitudeKey, p);
  }

  /** Every leading run of the sorted debits is descending, is drawn from
      the debits, and its i-th element is exceeded by at most i debits. */
  lemma SortedPrefix(debits: seq<Tagged>, k: nat)
    ensures var r := Take(ByMagnitude(debits), k);
      && Descending(r, MagnitudeKey)
      && forall i :: 0 <= i < |r| ==> r[i] in debits && Count(debits, Above(MagnitudeKey(r[i]))) <= i
  {
    var s := ByMagnitude(debits);
    var r := Take(s, k);
    forall i | 0 <= i < |r| ensures r[i] in debits && Count(debits, Above(MagnitudeKey(r[i]))) <= i {
      assert r[i] == s[i];
      assert s[i] in multiset(debits);
      CountAboveRank(s, i);
      SortPreservesCount(debits, MagnitudeKey, Above(MagnitudeKey(s[i])));
    }
  }

  /** The scan of the first ten of those (`[:10]`) against the threshold. */
  function ScanLargest(debits: seq<Tagged>): seq<Tagged> {
    Filter(Take(ByMagnitude(debits), TopN), IsFlagged(Magnitudes(debits)))
  }

  lemma ScanShape(debits: seq<Tagged>)
    ensures var r := ScanLargest(debits);
      && |r| <= TopN
      && |r| == Min(TopN, Count(debits, IsFlagged(Magnitudes(debits))))
      && r == Take(SortDesc(debits, MagnitudeKey), |r|)
      && Descending(r, MagnitudeKey)
  {
    FlaggedPrefix(debits);
    SortedPrefix(debits, |ScanLargest(debits)|);
  }

  lemma ScanMembers(debits: seq<Tagged>)
    ensures var r := ScanLargest(debits);
      forall i :: 0 <= i < |r| ==> r[i] in debits && Count(debits, Above(MagnitudeKey(r[i]))) < TopN
  {
    FlaggedPrefix(debits);
    SortedPrefix(debits, |ScanLargest(debits)|);
  }

  lemma ScanReachesThreshold(debits: seq<Tagged>)
    ensures var r := ScanLargest(debits);
      forall i :: 0 <= i < |r| ==>
        AtOrAboveThreshold(MagnitudeKey(r[i]), Magnitudes(debits)) && MagnitudeKey(r[i]) >= AnomalyFloor
  {
    var r := ScanLargest(debits);
    forall i | 0 <= i < |r|
      ensures AtOrAboveThreshold(MagnitudeKey(r[i]), Magnitudes(debits))
    {
      assert IsFlagged(Magnitudes(debits))(r[i]);
    }
  }

  /** The debits reported as anomalies: those of the ten largest (ties in
      first-seen order) that reach the threshold. They are at most ten, all
      at or above the threshold (hence at least 500.00), each one of the ten
      largest debits, in descending order, and they are exactly the
      `min(10, K)` largest debits where K is the number of debits at or above
      the threshold. */
  function FlaggedDebits(debits: seq<Tagged>): (r: seq<Tagged>)
    ensures |r| <= TopN
    ensures |debits| == 0 ==> r == []
    ensures forall i :: 0 <= i < |r| ==> r[i] in debits
    ensures forall i :: 0 <= i < |r| ==>
              AtOrAboveThreshold(MagnitudeKey(r[i]), Magnitudes(debits)) && MagnitudeKey(r[i]) >= AnomalyFloor
    ensures forall i :: 0 <= i < |r| ==> Count(debits, Above(MagnitudeKey(r[i]))) < TopN
    ensures Descending(r, MagnitudeKey)
    ensures |r| == Min(TopN, Count(debits, IsFlagged(Magnitudes(debits))))
    ensures r == Take(SortDesc(debits, MagnitudeKey), |r|)
  {
    if |debits| == 0 then []
    else
      ScanShape(debits);
      ScanMembers(debits);
      ScanReachesThreshold(debits);
      ScanLargest(debits)
  }

  /** The `anomalies` list: the flagged debits as records. */
  function ToAnomaly(t: Tagged): Anomaly {
    Anomaly(Magnitude(t.txn), t.txn.description, MerchantName(t.txn), EffectiveStamp(t.txn), t.account)
  }

  /** Each anomaly record comes from one of the debits. */
  lemma AnomalyProvenance(debits: seq<Tagged>)
    ensures var r := Map(FlaggedDebits(debits), ToAnomaly);
      forall i :: 0 <= i < |r| ==> exists t :: t in debits && r[i] == ToAnomaly(t)
  {
    var flagged := FlaggedDebits(debits);
    forall i | 0 <= i < |flagged| ensures exists t :: t in debits && ToAnomaly(flagged[i]) == ToAnomaly(t) {
      assert flagged[i] in debits;
    }
  }

  /** The anomaly records keep the amounts of the flagged debits, so each
      reaches the threshold. */
  lemma AnomalyAmounts(debits: seq<Tagged>)
    ensures var r := Map(FlaggedDebits(debits), ToAnomaly);
      && (forall i :: 0 <= i < |r| ==> AtOrAboveThreshold(r[i].amount, Magnitudes(debits)) && r[i].amount >= AnomalyFloor)
      && (forall i, j :: 0 <= i < j < |r| ==> r[i].amount >= r[j].amount)
  {
    var flagged := FlaggedDebits(debits);
    assert forall i :: 0 <= i < |flagged| ==> ToAnomaly(flagged[i]).amount == MagnitudeKey(flagged[i]);
  }

  /** The `anomalies` list: record `i` describes the `i`-th flagged
      debit, and every record's amount reaches the threshold. */
  function DetectAnomalies(debits: seq<Tagged>): (r: seq<Anomaly>)
    ensures |r| == |FlaggedDebits(debits)| <= TopN
    ensures forall i :: 0 <= i < |r| ==> r[i] == ToAnomaly(FlaggedDebits(debits)[i])
    ensures forall i :: 0 <= i < |r| ==> AtOrAboveThreshold(r[i].amount, Magnitudes(debits))
    ensures forall i :: 0 <= i < |r| ==> r[i].amount >= AnomalyFloor
    ensures forall i, j :: 0 <= i < j < |r| ==> r[i].amount >= r[j].amount
    ensures |debits| == 0 ==> r == []
    ensures forall i :: 0 <= i < |r| ==> exists t :: t in debits && r[i] == ToAnomaly(t)
  {
    AnomalyProvenance(debits);
    AnomalyAmounts(debits);
    Map(FlaggedDebits(debits), ToAnomaly)
  }

  // ---------------------------------------------------------------------
  // Lemmas behind FlaggedDebits.

  lemma MulMonotone(a: int, b: int, c: int)
    requires 0 <= a <= b && c >= 0
    ensures a * c <= b * c
  {
  }

  /** Reaching the threshold is upward closed in the amount. */
  lemma FlagMonotone(xs: seq<int>)
    ensures forall t1: Tagged, t2: Tagged :: MagnitudeKey(t2) <= MagnitudeKey(t1) && IsFlagged(xs)(t2) ==> IsFlagged(xs)(t1)
  {
    forall t1: Tagged, t2: Tagged | MagnitudeKey(t2) <= MagnitudeKey(t1) && IsFlagged(xs)(t2)
      ensures IsFlagged(xs)(t1)
    {
      var a, b := MagnitudeKey(t2), MagnitudeKey(t1);
      var da, db := |xs| * a - Sum(xs), |xs| * b - Sum(xs);
      MulMonotone(a, b, |xs|);
      assert da <= db;
      MulMonotone(da, db, da);
      MulMonotone(da, db, db);
      assert db * db >= da * da;
    }
  }

  ghost predicate PrefixClosed<T>(s: seq<T>, p: T -> bool) {
    forall i, j :: 0 <= i < j < |s| && p(s[j]) ==> p(s[i])
  }

  lemma {:induction false} DescendingPrefixClosed<T>(s: seq<T>, key: T -> int, p: T -> bool)
    requires Descending(s, key)
    requires forall t1: T, t2: T :: key(t2) <= key(t1) && p(t2) ==> p(t1)
    ensures PrefixClosed(s, p)
  {
  }

  /** When `p` holds on a prefix only, that prefix is `Count` long. */
  lemma {:induction false} PrefixClosedCount<T>(s: seq<T>, p: T -> bool)
    requires PrefixClosed(s, p)
    ensures Count(s, p) <= |s|
    ensures forall j :: 0 <= j < |s| ==> (p(s[j]) <==> j < Count(s, p))
  {
    if |s| > 0 {
      var t := s[1..];
      assert PrefixClosed(t, p);
      PrefixClosedCount(t, p);
      assert forall j :: 1 <= j < |s| ==> s[j] == t[j - 1];
      if !p(s[0]) {
        assert forall j :: 1 <= j < |s| ==> !p(s[j]);
      }
    }
  }

  /** When `p` holds on a prefix only, filtering keeps exactly that prefix. */
  lemma {:induction false} FilterPrefixClosed<T>(s: seq<T>, p: T -> bool)
    requires PrefixClosed(s, p)
    ensures Count(s, p) <= |s| && Filter(s, p) == s[..Count(s, p)]
  {
    PrefixClosedCount(s, p);
    if |s| > 0 {
      var t := s[1..];
      assert PrefixClosed(t, p);
      FilterPrefixClosed(t, p);
      if p(s[0]) {
        assert s[..Count(s, p)] == [s[0]] + t[..Count(t, p)];
      } else {
        assert Count(s, p) == 0;
        FilterNone(s, p);
      }
    }
  }

  /** Within the first `m` elements of a prefix-closed sequence, `p` holds
      on the first `min(m, Count)`. */
  lemma CountPrefix<T>(s: seq<T>, p: T -> bool, m: nat)
    requires PrefixClosed(s, p) && m <= |s|
    ensures Count(s[..m], p) == Min(m, Count(s, p))
  {
    var u := s[..m];
    assert PrefixClosed(u, p);
    PrefixClosedCount(u, p);
    PrefixClosedCount(s, p);
    var cu, c := Count(u, p), Count(s, p);
    if cu < m {
      assert u[cu] == s[cu];
      assert !p(s[cu]);
    }
    if c < m {
      assert u[c] == s[c];
      assert !p(u[c]);
    }
  }

  /** Filtering the first `k` elements of a prefix-closed sequence keeps the
      first `min(k, Count)` of them. */
  lemma TakeFilterPrefixClosed<T>(s: seq<T>, p: T -> bool, k: nat)
    requires PrefixClosed(s, p)
    ensures Filter(Take(s, k), p) == Take(s, Min(k, Count(s, p)))
  {
    var t := Take(s, k);
    assert PrefixClosed(t, p);
    FilterPrefixClosed(t, p);
    CountPrefix(s, p, |t|);
    FilterPrefixClosed(s, p);
    assert t[..Count(t, p)] == s[..Count(t, p)];
  }

  lemma {:induction false} FilterNone<T>(xs: seq<T>, p: T -> bool)
    requires forall i :: 0 <= i < |xs| ==> !p(xs[i])
    ensures Filter(xs, p) == []
  {
    if |xs| > 0 {
      FilterNone(xs[1..], p);
    }
  }

  /** In a descending sequence, fewer than `i + 1` elements exceed the
      element at position `i`. */
  lemma {:induction false} CountAboveRank(s: seq<Tagged>, i: nat)
    requires Descending(s, MagnitudeKey) && i < |s|
    ensures Count(s, Above(MagnitudeKey(s[i]))) <= i
  {
    var p := Above(MagnitudeKey(s[i]));
    assert s == s[..i] + s[i..];
    FilterAppend(s[..i], s[i..], p);
    FilterNone(s[i..], p);
  }

  // ---------------------------------------------------------------------
  // The threshold against the source's real-valued statistics.

  /** `a / b` over the reals, named so that proofs can match it as a term. */
  ghost function Ratio(a: real, b: real): real
    requires b != 0.0
  {
    a / b
  }

  ghost function RealSquare(x: real): real {
    x * x
  }

  /** `statistics.mean`. */
  ghost function Mean(xs: seq<int>): real
    requires |xs| > 0
  {
    Ratio(Sum(xs) as real, |xs| as real)
  }

  /** Sum of squared deviations from `m`. */
  ghost function SqDev(xs: seq<int>, m: real): real {
    if |xs| == 0 then 0.0 else RealSquare(xs[0] as real - m) + SqDev(xs[1..], m)
  }

  /** `statistics.pvariance`: the population variance. */
  ghost function PVariance(xs: seq<int>): real
    requires |xs| > 0
  {
    Ratio(SqDev(xs, Mean(xs)), |xs| as real)
  }

  function RMax(a: real, b: real): real {
    if a >= b then a else b
  }

  /** Q − 2·m·S + n·m², the sum of squared deviations from m of n samples
      with sum S and sum of squares Q. */
  ghost function Expanded(q: real, s: real, n: real, m: real): real {
    q - 2.0 * m * s + n * m * m
  }

  /** n·Q − S² for n samples with sum S and sum of squares Q. */
  ghost function SpreadOf(n: real, s: real, q: real): real {
    n * q - s * s
  }

  ghost function ScaledBySquare(n: real, v: real): real {
    n * n * v
  }

  /** One more sample in the expanded sum of squared deviations. */
  lemma ExpandStep(x: real, m: real, q: real, s: real, k: real)
    ensures RealSquare(x - m) + Expanded(q, s, k, m) == Expanded(RealSquare(x) + q, x + s, k + 1.0, m)
  {
  }

  lemma CastSquare(a: int)
    ensures Square(a) as real == RealSquare(a as real)
  {
  }

  lemma {:induction false} SqDevExpand(xs: seq<int>, m: real)
    ensures SqDev(xs, m) == Expanded(SumSquares(xs) as real, Sum(xs) as real, |xs| as real, m)
  {
    if |xs| > 0 {
      var t := xs[1..];
      SqDevExpand(t, m);
      CastSquare(xs[0]);
      ExpandStep(xs[0] as real, m, SumSquares(t) as real, Sum(t) as real, |t| as real);
    }
  }

  lemma {:induction false} SqDevNonNegative(xs: seq<int>, m: real)
    ensures SqDev(xs, m) >= 0.0
  {
    if |xs| > 0 {
      SqDevNonNegative(xs[1..], m);
    }
  }

  lemma CastProduct(a: int, b: int)
    ensures (a * b) as real == (a as real) * (b as real)
  {
  }

  /** n²·(SqDev/n) = n·Q − S² when SqDev is expanded around the mean
      m = S/n. */
  lemma SpreadAlgebra(n: real, s: real, q: real, m: real, sq: real, pv: real)
    requires n > 0.0 && m == Ratio(s, n)
    requires sq == Expanded(q, s, n, m)
    requires pv == Ratio(sq, n)
    ensures ScaledBySquare(n, pv) == SpreadOf(n, s, q)
  {
    assert m * n == s;
    assert n * n * (sq / n) == n * sq;
    assert n * sq == n * q - 2.0 * (m * n) * s + (m * n) * (m * n);
  }

  /** n·Q − S² over the reals, for the samples `xs`. */
  ghost function RealSpread(xs: seq<int>): real {
    SpreadOf(|xs| as real, Sum(xs) as real, SumSquares(xs) as real)
  }

  lemma {:induction false} SpreadAsReal(xs: seq<int>)
    requires |xs| > 1
    ensures Spread(xs) as real == RealSpread(xs)
  {
    CastProduct(|xs|, SumSquares(xs));
    CastProduct(Sum(xs), Sum(xs));
  }

  /** n² times the population variance is n·Q − S². */
  lemma {:induction false} ScaledVariance(xs: seq<int>)
    requires |xs| > 1
    ensures ScaledBySquare(|xs| as real, PVariance(xs)) == RealSpread(xs)
  {
    SqDevExpand(xs, Mean(xs));
    SpreadAlgebra(|xs| as real, Sum(xs) as real, SumSquares(xs) as real, Mean(xs), SqDev(xs, Mean(xs)), PVariance(xs));
  }

  /** Spread is n² times the population variance. */
  lemma {:induction false} SpreadIsScaledVariance(xs: seq<int>)
    requires |xs| > 1
    ensures Spread(xs) as real == (|xs| as real) * (|xs| as real) * PVariance(xs)
  {
    ScaledVariance(xs);
    SpreadAsReal(xs);
  }

  lemma NonNegMul(a: real, b: real)
    requires a >= 0.0 && b >= 0.0
    ensures a * b >= 0.0
  {
  }

  /** The variance behind the threshold is never negative, so the threshold
      is never below the mean. */
  lemma {:induction false} SpreadNonNegative(xs: seq<int>)
    ensures Spread(xs) >= 0
  {
    if |xs| > 1 {
      var n := |xs| as real;
      SpreadIsScaledVariance(xs);
      SqDevNonNegative(xs, Mean(xs));
      assert PVariance(xs) >= 0.0;
      NonNegMul(n * n, PVariance(xs));
    }
  }

  lemma PosMul(x: real, y: real)
    requires x > 0.0 && y > 0.0
    ensures x * y > 0.0
  {
  }

  /** Squaring is strictly increasing on the non-negative reals. */
  lemma SquareCompare(a: real, b: real)
    requires a >= 0.0 && b >= 0.0
    ensures a * a >= b * b <==> a >= b
  {
    if a >= b {
      NonNegMul(a - b, a + b);
      assert (a - b) * (a + b) == a * a - b * b;
    } else {
      PosMul(b - a, b + a);
      assert (b - a) * (b + a) == b * b - a * a;
    }
  }

  lemma SignedSquareCompare(d: real, e: real)
    requires e >= 0.0
    ensures (d >= 0.0 && d * d >= e * e) <==> d >= e
  {
    if d >= 0.0 {
      SquareCompare(d, e);
    }
  }

  /** Multiplying by a positive factor keeps the order. */
  lemma ScaleCompare(c: real, x: real, y: real)
    requires c > 0.0
    ensures c * x >= c * y <==> x >= y
  {
    if x >= y {
      NonNegMul(c, x - y);
      assert c * (x - y) == c * x - c * y;
    } else {
      PosMul(c, y - x);
      assert c * (y - x) == c * y - c * x;
    }
  }

  lemma ProductSquare(a: real, b: real)
    ensures (a * b) * (a * b) == (a * a) * (b * b)
  {
  }

  /** `amt >= S/n + 2·std` is `n·amt − S >= 2·(n·std)`. */
  lemma ScaledThreshold(n: real, s: real, amt: real, std: real)
    requires n > 0.0
    ensures amt >= s / n + 2.0 * std <==> n * amt - s >= 2.0 * (n * std)
  {
    ScaleCompare(n, amt - s / n, 2.0 * std);
    assert n * (amt - s / n) == n * amt - s;
    assert n * (2.0 * std) == 2.0 * (n * std);
  }

  /** The threshold test without the square root, over the reals. */
  lemma ThresholdReal(n: real, s: real, amt: real, std: real, dev: real, sp: real)
    requires n > 0.0 && std >= 0.0
    requires dev == n * amt - s
    requires sp == (n * n) * (std * std)
    ensures (dev >= 0.0 && dev * dev >= 4.0 * sp) <==> amt >= s / n + 2.0 * std
  {
    var e := n * std;
    NonNegMul(n, std);
    ScaledThreshold(n, s, amt, std);
    SignedSquareCompare(dev, 2.0 * e);
    ProductSquare(n, std);
    assert (2.0 * e) * (2.0 * e) == 4.0 * (e * e);
  }

  lemma SquareTestCast(dev: int, spread: int)
    ensures (dev >= 0 && dev * dev >= 4 * spread)
        <==> (dev as real >= 0.0 && (dev as real) * (dev as real) >= 4.0 * (spread as real))
  {
    CastProduct(dev, dev);
  }

  /** The integer test against the real threshold, for any count, sum and
      spread. */
  lemma ThresholdGeneric(n: int, s: int, spread: int, amt: int, std: real)
    requires n > 0 && std >= 0.0
    requires spread as real == (n as real * n as real) * (std * std)
    ensures (amt >= AnomalyFloor && n * amt - s >= 0 && (n * amt - s) * (n * amt - s) >= 4 * spread)
        <==> amt as real >= RMax(s as real / n as real + 2.0 * std, AnomalyFloor as real)
  {
    var dev := n * amt - s;
    CastProduct(n, amt);
    SquareTestCast(dev, spread);
    ThresholdReal(n as real, s as real, amt as real, std, dev as real, spread as real);
  }

  lemma SpreadMatchesStd(xs: seq<int>, std: real)
    requires |xs| > 0
    requires std * std == (if |xs| > 1 then PVariance(xs) else 0.0)
    ensures Spread(xs) as real == (|xs| as real * |xs| as real) * (std * std)
  {
    if |xs| > 1 {
      SpreadIsScaledVariance(xs);
    } else {
      var n := |xs| as real;
      assert (n * n) * 0.0 == 0.0;
    }
  }

  lemma ThresholdFromScaledStd(xs: seq<int>, amt: int, std: real)
    requires |xs| > 0 && std >= 0.0
    requires Spread(xs) as real == (|xs| as real * |xs| as real) * (std * std)
    ensures AtOrAboveThreshold(amt, xs) <==> amt as real >= RMax(Mean(xs) + 2.0 * std, AnomalyFloor as real)
  {
    ThresholdGeneric(|xs|, Sum(xs), Spread(xs), amt, std);
  }

  /** The exact test is the source's test: for any non-negative `std` whose
      square is the variance the source uses (pvariance with two or more
      debits, 0 with one), an amount passes AtOrAboveThreshold exactly when
      it is at least `max(mean + 2·std, 500.00)`. */
  lemma ThresholdMatchesSource(xs: seq<int>, amt: int, std: real)
    requires |xs| > 0
    requires std >= 0.0
    requires std * std == (if |xs| > 1 then PVariance(xs) else 0.0)
    ensures AtOrAboveThreshold(amt, xs) <==> amt as real >= RMax(Mean(xs) + 2.0 * std, AnomalyFloor as real)
  {
    SpreadMatchesStd(xs, std);
    ThresholdFromScaledStd(xs, amt, std);
  }

  /** With a single debit the deviation is 0, so the threshold is exactly
      `max(amount, 500.00)`. */
  lemma SingleDebitThreshold(x: int, amt: int)
    ensures AtOrAboveThreshold(amt, [x]) <==> amt >= x && amt >= AnomalyFloor
  {
    assert Sum([x]) == x;
  }

  lemma {:induction false} UniformSums(xs: seq<int>, m: int)
    requires forall i :: 0 <= i < |xs| ==> xs[i] == m
    ensures Sum(xs) == |xs| * m && SumSquares(xs) == |xs| * (m * m)
  {
    if |xs| > 0 {
      UniformSums(xs[1..], m);
    }
  }

  /** Debits that are all the same amount of at least 500.00 (for instance
      ten debits of 600.00) have zero spread, so every one of them is
      flagged, up to ten. */
  lemma {:induction false} UniformDebitsAllFlagged(debits: seq<Tagged>, m: int)
    requires forall i :: 0 <= i < |debits| ==> MagnitudeKey(debits[i]) == m
    requires m >= AnomalyFloor
    ensures |FlaggedDebits(debits)| == Min(TopN, |debits|)
  {
    var xs := Magnitudes(debits);
    UniformSums(xs, m);
    var n := |xs|;
    assert n * (m * m) * n == (n * m) * (n * m);
    assert Spread(xs) == 0;
    assert n * m - Sum(xs) == 0;
    var p := IsFlagged(xs);
    forall i | 0 <= i < |debits| ensures p(debits[i]) {
    }
    FilterAll(debits, p);
  }

  lemma {:induction false} FilterAll<T>(xs: seq<T>, p: T -> bool)
    requires forall i :: 0 <= i < |xs| ==> p(xs[i])
    ensures Filter(xs, p) == xs
  {
    if |xs| > 0 {
      FilterAll(xs[1..], p);
    }
  }
}
