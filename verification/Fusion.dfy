/** Fusing several readings of one token: the median, how far the sources stray from it, and a band
    widened when they stray too far. */
module Fusion {
  import opened FixedPoint
  import opened Options
  import opened OracleTypes
  import opened Permutations
  import opened Sorting

  predicate IsMax(xs: seq<nat>, m: nat) {
    m in xs && forall x :: x in xs ==> x <= m
  }

  predicate IsMin(xs: seq<nat>, m: nat) {
    m in xs && forall x :: x in xs ==> m <= x
  }

  // ---------- the median ----------

  predicate AtMost(x: nat, y: nat) { x <= y }

  predicate Sorted(s: seq<nat>) {
    forall i, j :: 0 <= i < j < |s| ==> s[i] <= s[j]
  }

  function Sort(s: seq<nat>): seq<nat> { SortBy(AtMost, s) }

  lemma SortIsSorted(s: seq<nat>)
    ensures Sorted(Sort(s)) && multiset(Sort(s)) == multiset(s) && |Sort(s)| == |s|
  {
    SortKeeps(AtMost, s);
    SortInOrder(AtMost, s);
    SameLength(Sort(s), s);
  }

  /** Floor of the mean of the two middle values for an even count; nothing for no values. */
  function RobustMedian(values: seq<nat>): Option<nat> {
    SortIsSorted(values);
    var sorted, mid := Sort(values), |values| / 2;
    if values == [] then None
    else if |values| % 2 == 1 then Some(sorted[mid])
    else Some((sorted[mid - 1] + sorted[mid]) / 2)
  }

  lemma MedianOfSome(values: seq<nat>)
    requires values != []
    ensures RobustMedian(values).Some?
  {
  }

  /** How many values lie in [lo, hi]. */
  function Within(s: seq<nat>, lo: nat, hi: nat): nat {
    if s == [] then 0 else (if lo <= s[0] <= hi then 1 else 0) + Within(s[1..], lo, hi)
  }

  lemma {:induction false} WithinInsert(x: nat, s: seq<nat>, lo: nat, hi: nat)
    ensures Within(InsertBy(AtMost, x, s), lo, hi) == Within([x] + s, lo, hi)
  {
    if s == [] || x <= s[0] {
    } else {
      WithinInsert(x, s[1..], lo, hi);
      assert ([s[0]] + InsertBy(AtMost, x, s[1..]))[1..] == InsertBy(AtMost, x, s[1..]);
      assert ([x] + s)[1..] == s && ([x] + s[1..])[1..] == s[1..];
    }
  }

  lemma {:induction false} WithinSort(s: seq<nat>, lo: nat, hi: nat)
    ensures Within(Sort(s), lo, hi) == Within(s, lo, hi)
  {
    if s == [] {
    } else {
      WithinSort(s[1..], lo, hi);
      WithinInsert(s[0], Sort(s[1..]), lo, hi);
      assert ([s[0]] + Sort(s[1..]))[1..] == Sort(s[1..]);
    }
  }

  /** Values that lie outside cap how many lie within. */
  lemma {:induction false} WithinAtMost(s: seq<nat>, lo: nat, hi: nat, a: nat, b: nat)
    requires a <= b <= |s|
    requires forall i :: a <= i < b ==> !(lo <= s[i] <= hi)
    ensures Within(s, lo, hi) <= |s| - (b - a)
  {
    if s == [] {
    } else {
      forall i | (if a == 0 then 0 else a - 1) <= i < (if b == 0 then 0 else b - 1) ensures !(lo <= s[1..][i] <= hi) {
        assert s[1..][i] == s[i + 1];
      }
      WithinAtMost(s[1..], lo, hi, if a == 0 then 0 else a - 1, if b == 0 then 0 else b - 1);
    }
  }

  lemma MiddleWithin(s: seq<nat>, lo: nat, hi: nat)
    requires Sorted(s) && 2 * Within(s, lo, hi) > |s| > 0
    ensures lo <= s[(|s| - 1) / 2] && s[|s| / 2] <= hi
  {
    var low, high := (|s| - 1) / 2, |s| / 2;
    if s[high] > hi {
      forall i | high <= i < |s| ensures s[i] > hi { assert s[high] <= s[i]; }
      WithinAtMost(s, lo, hi, high, |s|);
    }
    if s[low] < lo {
      forall i | 0 <= i < low + 1 ensures s[i] < lo { assert s[i] <= s[low]; }
      WithinAtMost(s, lo, hi, 0, low + 1);
    }
  }

  /** Once a strict majority reports a value in [lo, hi], the rest cannot move the median out of it. */
  lemma MedianWithinMajority(values: seq<nat>, lo: nat, hi: nat)
    requires 2 * Within(values, lo, hi) > |values|
    ensures RobustMedian(values).Some? && lo <= RobustMedian(values).value <= hi
  {
    SortIsSorted(values);
    WithinSort(values, lo, hi);
    MiddleWithin(Sort(values), lo, hi);
    var s, mid := Sort(values), |values| / 2;
    if |values| % 2 == 0 {
      assert (|values| - 1) / 2 == mid - 1;
      assert s[mid - 1] <= s[mid];
    }
  }

  /** The values fall into as many low ones as high ones. */
  predicate Halves(values: multiset<nat>, low: seq<nat>, high: seq<nat>) {
    |low| == |high| && values == multiset(low) + multiset(high) && forall x, y :: x in low && y in high ==> x <= y
  }

  /** An odd count: the value between the low and the high ones. */
  ghost predicate IsMiddleOne(values: multiset<nat>, m: nat) {
    && m in values
    && exists low: seq<nat>, high: seq<nat> ::
         && Halves(values - multiset{m}, low, high)
         && (forall x :: x in low ==> x <= m) && (forall y :: y in high ==> m <= y)
  }

  /** An even count: the floored mean of the greatest low and the least high one. */
  ghost predicate IsMiddleMean(values: multiset<nat>, m: nat) {
    exists low: seq<nat>, high: seq<nat>, x: nat, y: nat ::
      Halves(values, low, high) && IsMax(low, x) && IsMin(high, y) && 2 * m <= x + y < 2 * m + 2
  }

  lemma SortedCut(s: seq<nat>, k: nat)
    requires Sorted(s) && k <= |s|
    ensures multiset(s) == multiset(s[..k]) + multiset(s[k..])
    ensures forall x, y :: x in s[..k] && y in s[k..] ==> x <= y
  {
    assert s == s[..k] + s[k..];
    forall x, y | x in s[..k] && y in s[k..] ensures x <= y {
      var i :| 0 <= i < k && s[i] == x;
      var j :| k <= j < |s| && s[j] == y;
    }
  }

  lemma MiddleOfOdd(s: seq<nat>, low: seq<nat>, m: nat, high: seq<nat>)
    requires Sorted(s) && s == low + [m] + high && |low| == |high|
    ensures IsMiddleOne(multiset(s), m)
  {
    var k := |low|;
    assert s[k] == m && m in s;
    forall x | x in low ensures x <= m {
      var i :| 0 <= i < k && low[i] == x;
      assert s[i] == x;
    }
    forall y | y in high ensures m <= y {
      var j :| 0 <= j < |high| && high[j] == y;
      assert s[k + 1 + j] == y;
    }
    assert multiset(s) - multiset{m} == multiset(low) + multiset(high);
    assert Halves(multiset(s) - multiset{m}, low, high);
  }

  lemma MiddleOfEven(s: seq<nat>, k: nat, m: nat)
    requires Sorted(s) && |s| == 2 * k && k > 0 && 2 * m <= s[k - 1] + s[k] < 2 * m + 2
    ensures IsMiddleMean(multiset(s), m)
  {
    SortedCut(s, k);
    assert s[k - 1] in s[..k] && s[k] in s[k..];
    forall x | x in s[..k] ensures x <= s[k - 1] {
      var i :| 0 <= i < k && s[i] == x;
    }
    forall y | y in s[k..] ensures s[k] <= y {
      var j :| k <= j < |s| && s[j] == y;
    }
    assert Halves(multiset(s), s[..k], s[k..]) && IsMax(s[..k], s[k - 1]) && IsMin(s[k..], s[k]);
  }

  /** What the median is, over all values. */
  lemma MedianIsMiddle(values: seq<nat>)
    requires values != []
    ensures RobustMedian(values).Some?
    ensures |values| % 2 == 1 ==> IsMiddleOne(multiset(values), RobustMedian(values).value)
    ensures |values| % 2 == 0 ==> IsMiddleMean(multiset(values), RobustMedian(values).value)
  {
    SortIsSorted(values);
    var s, k := Sort(values), |values| / 2;
    if |values| % 2 == 1 {
      CutAtMiddle(s, k);
      MiddleOfOdd(s, s[..k], s[k], s[k + 1..]);
    } else {
      MiddleOfEven(s, k, (s[k - 1] + s[k]) / 2);
    }
  }

  lemma CutAtMiddle(s: seq<nat>, k: nat)
    requires |s| == 2 * k + 1
    ensures s == s[..k] + [s[k]] + s[k + 1..] && |s[..k]| == |s[k + 1..]|
  {
  }

  lemma SortOfPermutation(a: seq<nat>, b: seq<nat>)
    requires multiset(a) == multiset(b)
    ensures Sort(a) == Sort(b)
  {
    SortIsSorted(a);
    SortIsSorted(b);
    InOrderUnique(AtMost, Sort(a), Sort(b));
  }

  lemma MedianOfPermutation(a: seq<nat>, b: seq<nat>)
    requires multiset(a) == multiset(b)
    ensures RobustMedian(a) == RobustMedian(b)
  {
    SortOfPermutation(a, b);
    SameLength(a, b);
  }

  // ---------- fusion ----------

  function Distance(price: nat, median: nat): (d: nat)
    ensures price == median + d || median == price + d
  {
    if price > median then price - median else median - price
  }

  /** Deviation in basis points of the median, floored; none from a median of 0. */
  function DeviationBps(price: nat, median: nat): nat {
    if median == 0 then 0 else Distance(price, median) * BPS / median
  }

  datatype FusionOutput = FusionOutput(reading: OracleReading, diverged: bool, maxDeviationBps: nat)

  function Prices(rs: seq<OracleReading>): (ps: seq<nat>)
    ensures |ps| == |rs| && forall i :: 0 <= i < |rs| ==> ps[i] == rs[i].price
  {
    seq(|rs|, i requires 0 <= i < |rs| => rs[i].price)
  }

  function Deviations(rs: seq<OracleReading>, median: nat): (ds: seq<nat>)
    ensures |ds| == |rs| && forall i :: 0 <= i < |rs| ==> ds[i] == DeviationBps(rs[i].price, median)
  {
    seq(|rs|, i requires 0 <= i < |rs| => DeviationBps(rs[i].price, median))
  }

  function Confidences(rs: seq<OracleReading>): (cs: seq<nat>)
    ensures |cs| == |rs| && forall i :: 0 <= i < |rs| ==> cs[i] == rs[i].confidence
  {
    seq(|rs|, i requires 0 <= i < |rs| => rs[i].confidence)
  }

  function Timestamps(rs: seq<OracleReading>): (ts: seq<int>)
    ensures |ts| == |rs| && forall i :: 0 <= i < |rs| ==> ts[i] == rs[i].timestamp
  {
    seq(|rs|, i requires 0 <= i < |rs| => rs[i].timestamp)
  }

  /** The first of the first `n` positions that holds their least value. */
  predicate IsFirstLeast(xs: seq<nat>, n: nat, i: nat) {
    i < n <= |xs| && (forall j :: 0 <= j < n ==> xs[i] <= xs[j]) && (forall j :: 0 <= j < i ==> xs[i] < xs[j])
  }

  /** The first of the first `n` positions that holds their greatest value. */
  predicate IsFirstGreatest(xs: seq<int>, n: nat, i: nat) {
    i < n <= |xs| && (forall j :: 0 <= j < n ==> xs[j] <= xs[i]) && (forall j :: 0 <= j < i ==> xs[j] < xs[i])
  }

  /** What the fused band adds to the largest confidence: the largest deviation of the median, floored,
      if the readings diverge. */
  function Widening(median: nat, diverged: bool, maxDeviationBps: nat): (w: nat)
    ensures diverged ==> w * 10000 <= median * maxDeviationBps < w * 10000 + 10000
    ensures !diverged ==> w == 0
  {
    if diverged then median * maxDeviationBps / BPS else 0
  }

  /** Price, deviation, verdict and band. */
  predicate IsBand(rs: seq<OracleReading>, maxDivergenceBps: nat, out: FusionOutput) {
    && RobustMedian(Prices(rs)) == Some(out.reading.price)
    && IsMax(Deviations(rs, out.reading.price), out.maxDeviationBps)
    && (out.diverged <==> |rs| > 1 && out.maxDeviationBps > maxDivergenceBps)
    && out.reading.confidence >= Widening(out.reading.price, out.diverged, out.maxDeviationBps)
    && IsMax(Confidences(rs), out.reading.confidence - Widening(out.reading.price, out.diverged, out.maxDeviationBps))
  }

  /** Labels: the source closest to the median, the time and status of the freshest reading. */
  predicate IsLabelled(rs: seq<OracleReading>, out: FusionOutput, canonical: nat, freshest: nat) {
    && IsFirstLeast(Deviations(rs, out.reading.price), |rs|, canonical)
    && IsFirstGreatest(Timestamps(rs), |rs|, freshest)
    && out.reading.source == rs[canonical].source
    && out.reading.timestamp == rs[freshest].timestamp && out.reading.marketStatus == rs[freshest].marketStatus
  }

  /** What a fusion of the readings is. */
  ghost predicate IsFusion(rs: seq<OracleReading>, maxDivergenceBps: nat, out: FusionOutput) {
    IsBand(rs, maxDivergenceBps, out) &&
      exists canonical: nat, freshest: nat :: IsLabelled(rs, out, canonical, freshest)
  }

  method Greatest(xs: seq<nat>) returns (m: nat)
    requires xs != []
    ensures IsMax(xs, m)
  {
    m := xs[0];
    var i := 0;
    while i < |xs|
      invariant 0 <= i <= |xs| && m in xs
      invariant forall j :: 0 <= j < i ==> xs[j] <= m
    {
      if xs[i] > m {
        m := xs[i];
      }
      i := i + 1;
    }
  }

  /** One pass for both labels. */
  method PickLabels(rs: seq<OracleReading>, median: nat) returns (canonical: nat, freshest: nat)
    requires rs != []
    ensures IsFirstLeast(Deviations(rs, median), |rs|, canonical) && IsFirstGreatest(Timestamps(rs), |rs|, freshest)
  {
    var deviations, timestamps := Deviations(rs, median), Timestamps(rs);
    canonical, freshest := 0, 0;
    var i := 1;
    while i < |rs|
      invariant 1 <= i <= |rs|
      invariant IsFirstLeast(deviations, i, canonical) && IsFirstGreatest(timestamps, i, freshest)
    {
      if deviations[i] < deviations[canonical] {
        canonical := i;
      }
      if timestamps[i] > timestamps[freshest] {
        freshest := i;
      }
      i := i + 1;
    }
  }

  method Median(values: seq<nat>) returns (m: nat)
    requires values != []
    ensures RobustMedian(values) == Some(m)
  {
    m := RobustMedian(values).value;
  }

  /** No readings: the source throws. */
  method FuseReadings(rs: seq<OracleReading>, maxDivergenceBps: nat) returns (out: Option<FusionOutput>)
    ensures out.None? <==> rs == []
    ensures out.Some? ==> IsFusion(rs, maxDivergenceBps, out.value)
  {
    if rs == [] {
      return None;
    }
    var median := Median(Prices(rs));
    var maxDeviation := Greatest(Deviations(rs, median));
    var diverged := |rs| > 1 && maxDeviation > maxDivergenceBps;
    var canonical, freshest := PickLabels(rs, median);
    var base := Greatest(Confidences(rs));
    var confidence := base + Widening(median, diverged, maxDeviation);
    var fused := OracleReading(median, confidence, rs[freshest].timestamp, rs[freshest].marketStatus,
                               rs[canonical].source);
    out := Some(FusionOutput(fused, diverged, maxDeviation));
    assert IsLabelled(rs, out.value, canonical, freshest);
  }

  // ---------- what fusion promises ----------

  /** The fused price is the middle of the prices. */
  lemma FusedPriceIsMiddle(rs: seq<OracleReading>, limit: nat, out: FusionOutput)
    requires IsFusion(rs, limit, out)
    ensures |rs| % 2 == 1 ==> IsMiddleOne(multiset(Prices(rs)), out.reading.price)
    ensures |rs| % 2 == 0 ==> IsMiddleMean(multiset(Prices(rs)), out.reading.price)
  {
    MedianIsMiddle(Prices(rs));
  }

  /** A minority of sources, however wrong, cannot push the fused price out of the majority's range. */
  lemma {:induction false} FusedPriceIsRobust(rs: seq<OracleReading>, limit: nat, out: FusionOutput, lo: nat, hi: nat)
    requires IsFusion(rs, limit, out)
    requires 2 * Within(Prices(rs), lo, hi) > |rs|
    ensures lo <= out.reading.price <= hi
  {
    MedianWithinMajority(Prices(rs), lo, hi);
  }

  lemma TakeOut(b: seq<OracleReading>, x: OracleReading) returns (pre: seq<OracleReading>, post: seq<OracleReading>)
    requires x in multiset(b)
    ensures b == pre + [x] + post && multiset(pre + post) == multiset(b) - multiset{x}
  {
    var i :| 0 <= i < |b| && b[i] == x;
    pre, post := b[..i], b[i + 1..];
    assert b == pre + [x] + post;
  }

  lemma PricesWithout(pre: seq<OracleReading>, x: OracleReading, post: seq<OracleReading>)
    ensures multiset(Prices(pre + [x] + post)) == multiset(Prices(pre + post)) + multiset{x.price}
  {
    assert Prices(pre + [x] + post) == Prices(pre) + [x.price] + Prices(post);
    assert Prices(pre + post) == Prices(pre) + Prices(post);
  }

  lemma PricesHead(a: seq<OracleReading>)
    requires a != []
    ensures multiset(Prices(a)) == multiset(Prices(a[1..])) + multiset{a[0].price}
  {
    assert Prices(a) == [a[0].price] + Prices(a[1..]);
  }

  lemma {:induction false} PricesOfPermutation(a: seq<OracleReading>, b: seq<OracleReading>)
    requires multiset(a) == multiset(b)
    ensures multiset(Prices(a)) == multiset(Prices(b))
    decreases |a|
  {
    if a == [] {
      SameLength(a, b);
    } else {
      assert a[0] in multiset(a);
      var pre, post := TakeOut(b, a[0]);
      TailMultiset(a);
      PricesOfPermutation(a[1..], pre + post);
      PricesWithout(pre, a[0], post);
      PricesHead(a);
    }
  }

  lemma SameMembers(a: seq<OracleReading>, b: seq<OracleReading>, median: nat)
    requires forall r :: r in a ==> r in b
    ensures forall x :: x in Deviations(a, median) ==> x in Deviations(b, median)
    ensures forall x :: x in Confidences(a) ==> x in Confidences(b)
  {
    forall x | x in Deviations(a, median) ensures x in Deviations(b, median) {
      var i :| 0 <= i < |a| && Deviations(a, median)[i] == x;
      assert a[i] in b;
      var j :| 0 <= j < |b| && b[j] == a[i];
      assert Deviations(b, median)[j] == x;
    }
    forall x | x in Confidences(a) ensures x in Confidences(b) {
      var i :| 0 <= i < |a| && Confidences(a)[i] == x;
      assert a[i] in b;
      var j :| 0 <= j < |b| && b[j] == a[i];
      assert Confidences(b)[j] == x;
    }
  }

  /** The order in which sources answer does not matter to price, deviation, divergence or band. */
  lemma FusionIgnoresOrder(a: seq<OracleReading>, b: seq<OracleReading>, limit: nat, x: FusionOutput, y: FusionOutput)
    requires multiset(a) == multiset(b)
    requires IsFusion(a, limit, x) && IsFusion(b, limit, y)
    ensures x.reading.price == y.reading.price && x.maxDeviationBps == y.maxDeviationBps
    ensures x.diverged == y.diverged && x.reading.confidence == y.reading.confidence
  {
    PricesOfPermutation(a, b);
    MedianOfPermutation(Prices(a), Prices(b));
    assert |multiset(a)| == |a| && |multiset(b)| == |b|;
    assert forall r :: r in a <==> r in multiset(a);
    assert forall r :: r in b <==> r in multiset(b);
    SameMembers(a, b, x.reading.price);
    SameMembers(b, a, x.reading.price);
  }

  lemma DeviationBounds(price: nat, median: nat)
    requires median > 0
    ensures DeviationBps(price, median) * median <= Distance(price, median) * BPS
    ensures Distance(price, median) * BPS < (DeviationBps(price, median) + 1) * median
  {
    var x, d := Distance(price, median) * BPS, DeviationBps(price, median);
    assert x == median * (x / median) + x % median;
  }

  lemma WidenCovers(distance: nat, median: nat, d: nat, max: nat)
    requires distance * BPS < (d + 1) * median && d <= max
    ensures distance <= median * max / BPS + median / BPS + 1
  {
    assert (d + 1) * median <= (max + 1) * median == median * max + median;
  }

  lemma WithinLimit(distance: nat, median: nat, d: nat, limit: nat)
    requires distance * BPS < (d + 1) * median && d <= limit
    ensures distance * BPS < median * (limit + 1)
  {
    assert (d + 1) * median <= (limit + 1) * median == median * (limit + 1);
  }

  lemma WidenFits(distance: nat, median: nat, d: nat)
    requires d * median <= distance * BPS
    ensures median * d / BPS <= distance
  {
    assert median * d == d * median;
  }

  lemma ReadingDeviation(rs: seq<OracleReading>, median: nat, r: OracleReading)
    requires r in rs
    ensures DeviationBps(r.price, median) in Deviations(rs, median)
  {
    var i :| 0 <= i < |rs| && rs[i] == r;
    assert Deviations(rs, median)[i] == DeviationBps(r.price, median);
  }

  lemma DeviationReading(rs: seq<OracleReading>, median: nat, d: nat) returns (r: OracleReading)
    requires d in Deviations(rs, median)
    ensures r in rs && DeviationBps(r.price, median) == d
  {
    var i :| 0 <= i < |rs| && Deviations(rs, median)[i] == d;
    r := rs[i];
  }

  /** A positive deviation from a median means the median is positive. */
  lemma DivergedMedian(rs: seq<OracleReading>, limit: nat, out: FusionOutput)
    requires IsBand(rs, limit, out) && out.diverged
    ensures out.reading.price > 0
  {
    var r := DeviationReading(rs, out.reading.price, out.maxDeviationBps);
  }

  lemma BandCovers(rs: seq<OracleReading>, limit: nat, out: FusionOutput, r: OracleReading)
    requires IsBand(rs, limit, out) && out.diverged && r in rs
    ensures Distance(r.price, out.reading.price) <= out.reading.confidence + out.reading.price / BPS + 1
  {
    var median := out.reading.price;
    DivergedMedian(rs, limit, out);
    ReadingDeviation(rs, median, r);
    DeviationBounds(r.price, median);
    WidenCovers(Distance(r.price, median), median, DeviationBps(r.price, median), out.maxDeviationBps);
  }

  lemma BandIsObserved(rs: seq<OracleReading>, limit: nat, out: FusionOutput)
    requires IsBand(rs, limit, out) && out.diverged
    ensures var widening := Widening(out.reading.price, out.diverged, out.maxDeviationBps);
            exists r :: r in rs && widening <= Distance(r.price, out.reading.price)
  {
    var median := out.reading.price;
    DivergedMedian(rs, limit, out);
    var far := DeviationReading(rs, median, out.maxDeviationBps);
    DeviationBounds(far.price, median);
    WidenFits(Distance(far.price, median), median, out.maxDeviationBps);
  }

  /** When sources diverge the band covers every one of them, up to rounding, and is widened by no
      more than the largest distance actually observed. */
  lemma {:induction false} DivergedBandIsHonest(rs: seq<OracleReading>, limit: nat, out: FusionOutput)
    requires IsFusion(rs, limit, out) && out.diverged
    ensures forall r :: r in rs ==>
              Distance(r.price, out.reading.price) <= out.reading.confidence + out.reading.price / BPS + 1
    ensures var widening := Widening(out.reading.price, out.diverged, out.maxDeviationBps);
            exists r :: r in rs && widening <= Distance(r.price, out.reading.price)
  {
    forall r | r in rs
      ensures Distance(r.price, out.reading.price) <= out.reading.confidence + out.reading.price / BPS + 1
    {
      BandCovers(rs, limit, out, r);
    }
    BandIsObserved(rs, limit, out);
  }

  lemma MedianOfOne(rs: seq<OracleReading>)
    requires |rs| == 1
    ensures RobustMedian(Prices(rs)) == Some(rs[0].price)
  {
    SortIsSorted(Prices(rs));
    assert Prices(rs)[1..] == [] && SortBy(AtMost, []) == [];
    assert Sort(Prices(rs)) == InsertBy(AtMost, rs[0].price, SortBy(AtMost, Prices(rs)[1..]));
  }

  lemma AgreementBound(rs: seq<OracleReading>, limit: nat, out: FusionOutput, r: OracleReading)
    requires IsBand(rs, limit, out) && !out.diverged && out.reading.price > 0 && r in rs
    ensures Distance(r.price, out.reading.price) * BPS < out.reading.price * (limit + 1)
  {
    var median := out.reading.price;
    if |rs| == 1 {
      MedianOfOne(rs);
      assert median * (limit + 1) > 0;
    } else {
      ReadingDeviation(rs, median, r);
      DeviationBounds(r.price, median);
      WithinLimit(Distance(r.price, median), median, DeviationBps(r.price, median), limit);
    }
  }

  /** The band is at least as wide as every source's own, and no wider than the widest unless they
      diverge. */
  lemma BandOfSources(rs: seq<OracleReading>, limit: nat, out: FusionOutput)
    requires IsFusion(rs, limit, out)
    ensures forall r :: r in rs ==> r.confidence <= out.reading.confidence
    ensures !out.diverged ==> exists r :: r in rs && r.confidence == out.reading.confidence
  {
    var cs := Confidences(rs);
    forall r | r in rs ensures r.confidence <= out.reading.confidence {
      var i :| 0 <= i < |rs| && rs[i] == r;
      assert cs[i] in cs;
    }
    if !out.diverged {
      var i :| 0 <= i < |cs| && cs[i] == out.reading.confidence;
      assert rs[i] in rs;
    }
  }

  /** When they do not, every source is within the limit, plus less than one basis point, of a positive
      median. */
  lemma {:induction false} AgreementIsTight(rs: seq<OracleReading>, limit: nat, out: FusionOutput)
    requires IsFusion(rs, limit, out) && !out.diverged && out.reading.price > 0
    ensures forall r :: r in rs ==> Distance(r.price, out.reading.price) * BPS < out.reading.price * (limit + 1)
  {
    forall r | r in rs ensures Distance(r.price, out.reading.price) * BPS < out.reading.price * (limit + 1) {
      AgreementBound(rs, limit, out, r);
    }
  }

  /** A source at least one basis point beyond the limit, around a positive median. */
  predicate StraysBeyond(rs: seq<OracleReading>, median: nat, limit: nat) {
    median > 0 && exists r :: r in rs && Distance(r.price, median) * BPS >= median * (limit + 1)
  }

  /** A price by so many ten-thousandths of the median above or below it. */
  predicate OffBy(price: nat, median: nat, parts: nat) {
    price * 10000 >= median * (10000 + parts) || price * 10000 + median * parts <= median * 10000
  }

  /** In plain numbers. */
  lemma StraysMeans(rs: seq<OracleReading>, median: nat, limit: nat)
    ensures StraysBeyond(rs, median, limit) <==> median > 0 && exists r :: r in rs && OffBy(r.price, median, limit + 1)
  {
    if median > 0 {
      forall r | r in rs
        ensures Distance(r.price, median) * BPS >= median * (limit + 1) <==> OffBy(r.price, median, limit + 1)
      {
        OffMeans(r.price, median, limit + 1);
      }
    }
  }

  lemma OffMeans(price: nat, median: nat, parts: nat)
    requires median > 0 && parts > 0
    ensures Distance(price, median) * BPS >= median * parts <==> OffBy(price, median, parts)
  {
    var d, off := Distance(price, median), median * parts;
    assert off > 0 && median * (10000 + parts) == median * 10000 + off;
    if price == median + d {
      assert price * 10000 == median * 10000 + d * 10000;
    } else {
      assert median * 10000 == price * 10000 + d * 10000;
    }
  }

  lemma BeyondLimit(distance: nat, median: nat, d: nat, limit: nat)
    requires d * median <= distance * BPS && d > limit
    ensures distance * BPS >= median * (limit + 1)
  {
    assert d * median >= (limit + 1) * median == median * (limit + 1);
  }

  /** The verdict, from the readings alone. */
  lemma {:induction false} DivergedIff(rs: seq<OracleReading>, limit: nat, out: FusionOutput)
    requires IsFusion(rs, limit, out)
    ensures RobustMedian(Prices(rs)).Some?
    ensures out.diverged <==> StraysBeyond(rs, RobustMedian(Prices(rs)).value, limit)
  {
    var median := out.reading.price;
    if out.diverged {
      DivergedMedian(rs, limit, out);
      var far := DeviationReading(rs, median, out.maxDeviationBps);
      DeviationBounds(far.price, median);
      BeyondLimit(Distance(far.price, median), median, out.maxDeviationBps, limit);
    } else if median > 0 {
      AgreementIsTight(rs, limit, out);
    }
  }

  /** A source beyond the limit in the plain sense. */
  predicate AnyBeyond(rs: seq<OracleReading>, median: nat, limit: nat) {
    exists r :: r in rs && Distance(r.price, median) * BPS > median * limit
  }

  lemma StraysIsBeyond(distance: nat, median: nat, limit: nat)
    requires median > 0 && distance * BPS >= median * (limit + 1)
    ensures distance * BPS > median * limit
  {
    assert median * (limit + 1) == median * limit + median;
  }

  /** The verdict is "some source is beyond the limit" exactly unless some source is, but none by a
      basis point, or the median is 0. */
  lemma {:induction false} FlagsAnyBeyondIff(rs: seq<OracleReading>, limit: nat, out: FusionOutput)
    requires IsFusion(rs, limit, out)
    ensures RobustMedian(Prices(rs)).Some?
    ensures var median := RobustMedian(Prices(rs)).value;
            (out.diverged <==> AnyBeyond(rs, median, limit)) <==>
              !AnyBeyond(rs, median, limit) || StraysBeyond(rs, median, limit)
  {
    DivergedIff(rs, limit, out);
    var median := RobustMedian(Prices(rs)).value;
    if StraysBeyond(rs, median, limit) {
      var r :| r in rs && Distance(r.price, median) * BPS >= median * (limit + 1);
      StraysIsBeyond(Distance(r.price, median), median, limit);
    }
  }

  lemma MedianOfPair(rs: seq<OracleReading>, price: nat)
    requires |rs| == 3 && rs[0].price == price && rs[1].price == price
    ensures RobustMedian(Prices(rs)) == Some(price)
  {
    var ps := Prices(rs);
    assert ps == [price, price, rs[2].price];
    assert ps[1..] == [price, rs[2].price] && ps[1..][1..] == [rs[2].price] && [rs[2].price][1..] == [];
    MedianWithinMajority(ps, price, price);
  }

  /** The gap of a basis point: 30301 is 100.33 basis points off 30000 and passes a limit of 100. */
  lemma FloorGapHides(limit: nat, out: FusionOutput, r: OracleReading)
    requires r.price == 30000 && limit == 100
    requires IsFusion([r, r, r.(price := 30301)], limit, out)
    ensures !out.diverged && out.reading.price == 30000
    ensures AnyBeyond([r, r, r.(price := 30301)], 30000, limit)
  {
    var rs := [r, r, r.(price := 30301)];
    MedianOfPair(rs, 30000);
    DivergedIff(rs, limit, out);
    assert rs[2] in rs;
  }

  /** The median of 0: two sources there hide a third at any price. */
  lemma ZeroMedianHides(price: nat, limit: nat, out: FusionOutput, r: OracleReading)
    requires r.price == 0
    requires IsFusion([r, r, r.(price := price)], limit, out)
    ensures !out.diverged && out.reading.price == 0
  {
    var rs := [r, r, r.(price := price)];
    MedianOfPair(rs, 0);
    DivergedIff(rs, limit, out);
  }
}
