/** Net asset value off signals: values and bands with their floors, the confidence band, and the
    estimated flag carried through to the result. */
module Nav {
  import opened Options
  import opened FixedPoint
  import opened OracleTypes
  import opened SignalRouter

  const SCALE := 1_000_000_000_000_000_000

  datatype Holding = Holding(token: string, amount: nat, decimals: nat)

  /** Exact up to 18 decimals, truncating beyond. */
  function NormalizeTo18(value: nat, decimals: nat): nat {
    if decimals <= 18 then Times(value, Pow10(18 - decimals)) else Over(value, Pow10(decimals - 18))
  }

  /** A holding at `perToken` (a price, or a confidence) per token. */
  function ValueAt(h: Holding, perToken: nat): nat {
    Times(NormalizeTo18(h.amount, h.decimals), perToken) / SCALE
  }

  /** The sum over holdings, each floored on its own. */
  function Total(hs: seq<Holding>, perToken: seq<nat>): nat
    requires |hs| == |perToken|
  {
    if hs == [] then 0
    else Total(hs[..|hs| - 1], perToken[..|hs| - 1]) + ValueAt(hs[|hs| - 1], perToken[|hs| - 1])
  }

  // ---------- confidence band ----------

  datatype Band = Band(lower: nat, upper: nat)

  /** The half-width, widened by a share of the value when it is an estimate. */
  function HalfWidth(nav: nat, summedBand: nat, estimated: bool, estimatedBandBps: nat): nat {
    if estimated then summedBand + nav * estimatedBandBps / BPS else summedBand
  }

  /** Encloses the value, at least by the summed band upwards, and downwards as far as 0 allows. */
  function BandOf(nav: nat, summedBand: nat, estimated: bool, estimatedBandBps: nat): (b: Band)
    ensures b.lower <= nav <= b.upper
    ensures b.lower == 0 || nav - b.lower == b.upper - nav
    ensures b.upper - nav >= summedBand
  {
    var band := HalfWidth(nav, summedBand, estimated, estimatedBandBps);
    Band(if nav > band then nav - band else 0, nav + band)
  }

  /** The band of an estimate encloses that of the same value taken as settled. It is really wider
      exactly when the share of the value that it adds comes to a whole unit. */
  lemma EstimateWidensIff(nav: nat, summedBand: nat, estimatedBandBps: nat)
    ensures var settled := BandOf(nav, summedBand, false, estimatedBandBps);
            var estimate := BandOf(nav, summedBand, true, estimatedBandBps);
            && estimate.lower <= settled.lower && settled.upper <= estimate.upper
            && (estimate != settled <==> Times(nav, estimatedBandBps) >= BPS)
  {
    FloorBounds(Times(nav, estimatedBandBps), BPS);
  }

  /** What the band of an estimate promises: it holds exactly the values that are off by the summed
      band and the estimated share of the value together, at most. */
  lemma EstimateCoversIff(nav: nat, summedBand: nat, estimatedBandBps: nat, actual: nat)
    ensures var b := BandOf(nav, summedBand, true, estimatedBandBps);
            var off := if actual < nav then nav - actual else actual - nav;
            b.lower <= actual <= b.upper <==>
              off <= summedBand || Times(off - summedBand, BPS) <= Times(nav, estimatedBandBps)
  {
    var off := if actual < nav then nav - actual else actual - nav;
    var share := Over(Times(nav, estimatedBandBps), BPS);
    FloorBounds(Times(nav, estimatedBandBps), BPS);
    if off > summedBand + share {
      TimesMonotone(share + 1, off - summedBand, BPS);
    } else if off > summedBand {
      TimesMonotone(off - summedBand, share, BPS);
    }
  }

  /** The band of a settled value holds exactly the values that are off by the summed band at most. */
  lemma SettledCoversIff(nav: nat, summedBand: nat, estimatedBandBps: nat, actual: nat)
    ensures var b := BandOf(nav, summedBand, false, estimatedBandBps);
            b.lower <= actual <= b.upper <==> actual <= nav + summedBand && nav <= actual + summedBand
  {
  }

  /** Scaling to 18 decimals is the floor of value * 10^18 / 10^decimals, for any number of decimals. */
  lemma NormalizeIsFloor(value: nat, decimals: nat)
    ensures var r := NormalizeTo18(value, decimals);
            Times(r, Pow10(decimals)) <= Times(value, Pow10(18)) < Times(r + 1, Pow10(decimals))
  {
    if decimals <= 18 {
      Pow10Add(18 - decimals, decimals);
      ScaleUp(value, Pow10(18 - decimals), Pow10(decimals), Pow10(18));
    } else {
      Pow10Add(decimals - 18, 18);
      ScaleDown(value, Pow10(decimals - 18), Pow10(18), Pow10(decimals));
    }
  }

  // ---------- what a holding is worth ----------

  /** `value` is what the holding comes to at `perToken`: amount * perToken / 10^decimals, floored. Beyond
      18 decimals the amount is cut to 18 first, which costs less than one unit of the 18th per token. */
  predicate Worth(h: Holding, perToken: nat, value: nat) {
    var scale, exact := Pow10(h.decimals), Times(h.amount, perToken);
    && Times(value, scale) <= exact
    && exact < Times(value + 1, scale) + if h.decimals <= 18 then 0 else Times(perToken, Pow10(h.decimals - 18))
  }

  lemma ScaleIsWhole()
    ensures SCALE == Pow10(18)
  {
    assert Pow10(6) == 1000000;
    Pow10Add(6, 6);
    Pow10Add(12, 6);
  }

  /** Dividing by 10^18 what was scaled up from fewer decimals. */
  lemma WorthUpTo18(h: Holding, perToken: nat)
    requires h.decimals <= 18
    ensures Worth(h, perToken, ValueAt(h, perToken))
  {
    var up, scale := Pow10(18 - h.decimals), Pow10(h.decimals);
    var scaled, exact := Times(h.amount, up), Times(h.amount, perToken);
    var v := Over(Times(scaled, perToken), Pow10(18));
    ScaleIsWhole();
    Pow10Add(h.decimals, 18 - h.decimals);
    FloorBounds(Times(scaled, perToken), Pow10(18));
    SwapProduct(h.amount, up, perToken);
    TimesAssociates(v, scale, up);
    TimesAssociates(v + 1, scale, up);
    assert Times(v + 1, Pow10(18)) == Times(v, Pow10(18)) + Pow10(18);
    CancelLe(Times(v, scale), exact, up);
    CancelLt(exact, Times(v + 1, scale), up);
  }

  lemma SwapProduct(a: nat, b: nat, c: nat)
    ensures Times(Times(a, b), c) == Times(Times(a, c), b)
  {
    TimesAssociates(a, b, c);
    TimesAssociates(a, c, b);
    TimesCommutes(b, c);
  }

  /** Dividing by 10^18 what was cut down from more decimals. */
  lemma WorthBeyond18(h: Holding, perToken: nat)
    requires h.decimals > 18
    ensures Worth(h, perToken, ValueAt(h, perToken))
  {
    var down, scale := Pow10(h.decimals - 18), Pow10(h.decimals);
    var cut := Over(h.amount, down);
    var v := Over(Times(cut, perToken), Pow10(18));
    ScaleIsWhole();
    Pow10Add(18, h.decimals - 18);
    FloorBounds(h.amount, down);
    FloorBounds(Times(cut, perToken), Pow10(18));
    CutBounds(h.amount, perToken, cut, down, Times(cut, perToken));
    TimesMonotone(Times(v, Pow10(18)), Times(cut, perToken), down);
    TimesMonotone(Times(cut, perToken) + 1, Times(v + 1, Pow10(18)), down);
    TimesAssociates(v, Pow10(18), down);
    TimesAssociates(v + 1, Pow10(18), down);
    assert Times(v + 1, Pow10(18)) == Times(v, Pow10(18)) + Pow10(18);
    assert Times(Times(cut, perToken) + 1, down) == Times(Times(cut, perToken), down) + down;
  }

  lemma CutBounds(amount: nat, perToken: nat, cut: nat, down: nat, kept: nat)
    requires Times(cut, down) <= amount < Times(cut, down) + down && kept == Times(cut, perToken)
    ensures Times(kept, down) <= Times(amount, perToken) <= Times(kept, down) + Times(perToken, down)
  {
    SwapProduct(cut, perToken, down);
    TimesMonotone(Times(cut, down), amount, perToken);
    TimesMonotone(amount, Times(cut, down) + down, perToken);
    assert (Times(cut, down) + down) * perToken == Times(cut, down) * perToken + down * perToken;
    TimesCommutes(down, perToken);
  }

  lemma ValueIsWorth(h: Holding, perToken: nat)
    ensures Worth(h, perToken, ValueAt(h, perToken))
  {
    if h.decimals <= 18 {
      WorthUpTo18(h, perToken);
    } else {
      WorthBeyond18(h, perToken);
    }
  }

  // ---------- the fold over holdings ----------

  function Rank(s: OracleSource): nat {
    match s
    case Chainlink => 0
    case Pyth => 1
    case RedStone => 2
    case DexTwap => 3
    case PerpMark => 4
    case LastClose => 5
  }

  lemma WeakerTrans(a: OracleSource, b: OracleSource, c: OracleSource)
    ensures b in Weaker(a) && c in Weaker(b) ==> c in Weaker(a)
  {
  }

  /** Ranks grow from strong to weak. */
  lemma RankIsStrength(a: OracleSource, b: OracleSource)
    ensures Rank(a) > Rank(b) <==> a in Weaker(b)
    ensures a == b || a in Weaker(b) || b in Weaker(a)
  {
  }

  datatype NavResult = NavResult(nav: nat, band: Band, marketStatus: MarketStatus, source: OracleSource,
                                 estimated: bool, timestamp: int)

  function PricesOf(rs: seq<NavReading>): (ps: seq<nat>)
    ensures |ps| == |rs| && forall i :: 0 <= i < |rs| ==> ps[i] == rs[i].price
  {
    seq(|rs|, i requires 0 <= i < |rs| => rs[i].price)
  }

  function ConfidencesOf(rs: seq<NavReading>): (cs: seq<nat>)
    ensures |cs| == |rs| && forall i :: 0 <= i < |rs| ==> cs[i] == rs[i].confidence
  {
    seq(|rs|, i requires 0 <= i < |rs| => rs[i].confidence)
  }

  predicate Irregular(r: NavReading) { r.estimated || r.marketStatus != Regular }

  /** Status of the last reading that is estimated or not Regular. */
  function WorstStatus(rs: seq<NavReading>): MarketStatus {
    if rs == [] then Regular
    else if Irregular(rs[|rs| - 1]) then rs[|rs| - 1].marketStatus
    else WorstStatus(rs[..|rs| - 1])
  }

  predicate AnyIrregular(rs: seq<NavReading>) {
    exists r :: r in rs && Irregular(r)
  }

  /** The weakest source in use, Chainlink at best. */
  predicate IsWeakest(rs: seq<NavReading>, s: OracleSource) {
    && (forall r :: r in rs ==> r.source == s || s in Weaker(r.source))
    && (s == Chainlink || exists r :: r in rs && r.source == s)
  }

  /** The oldest timestamp in use, `now` at best; a timestamp of 0 counts as missing. */
  predicate IsOldest(rs: seq<NavReading>, now: int, t: int) {
    && t <= now && (forall r :: r in rs && r.timestamp != 0 ==> t <= r.timestamp)
    && (t == now || exists r :: r in rs && r.timestamp == t && t != 0)
  }

  predicate IsNav(hs: seq<Holding>, rs: seq<NavReading>, now: int, estimatedBandBps: nat, out: NavResult) {
    && |rs| == |hs|
    && out.nav == Total(hs, PricesOf(rs))
    && out.estimated == AnyIrregular(rs)
    && out.band == BandOf(out.nav, Total(hs, ConfidencesOf(rs)), out.estimated, estimatedBandBps)
    && out.marketStatus == WorstStatus(rs)
    && IsWeakest(rs, out.source) && IsOldest(rs, now, out.timestamp)
  }

  /** The loop's running totals. */
  datatype Running = Running(nav: nat, summedBand: nat, estimated: bool, worst: MarketStatus,
                             source: OracleSource, timestamp: int)

  /** What they are after the readings `rs` of the holdings `hs`. */
  predicate Folded(hs: seq<Holding>, rs: seq<NavReading>, now: int, x: Running) {
    |rs| == |hs| && Summed(hs, rs, x.nav, x.summedBand) && Labelled(rs, now, x)
  }

  predicate Summed(hs: seq<Holding>, rs: seq<NavReading>, nav: nat, summedBand: nat) {
    |rs| == |hs| && nav == Total(hs, PricesOf(rs)) && summedBand == Total(hs, ConfidencesOf(rs))
  }

  predicate Labelled(rs: seq<NavReading>, now: int, x: Running) {
    && x.estimated == AnyIrregular(rs) && x.worst == WorstStatus(rs)
    && IsWeakest(rs, x.source) && IsOldest(rs, now, x.timestamp)
  }

  lemma TotalSnoc(hs: seq<Holding>, ps: seq<nat>, h: Holding, p: nat)
    requires |hs| == |ps|
    ensures Total(hs + [h], ps + [p]) == Total(hs, ps) + ValueAt(h, p)
  {
    assert (hs + [h])[..|hs|] == hs && (ps + [p])[..|hs|] == ps;
  }

  lemma SummedStep(hs: seq<Holding>, rs: seq<NavReading>, nav: nat, summedBand: nat, h: Holding, r: NavReading)
    requires Summed(hs, rs, nav, summedBand)
    ensures Summed(hs + [h], rs + [r], nav + ValueAt(h, r.price), summedBand + ValueAt(h, r.confidence))
  {
    TotalSnoc(hs, PricesOf(rs), h, r.price);
    TotalSnoc(hs, ConfidencesOf(rs), h, r.confidence);
    assert PricesOf(rs + [r]) == PricesOf(rs) + [r.price];
    assert ConfidencesOf(rs + [r]) == ConfidencesOf(rs) + [r.confidence];
  }

  predicate Relabelled(x: Running, r: NavReading, y: Running) {
    var t := if r.timestamp != 0 then r.timestamp else x.timestamp;
    && y.estimated == (x.estimated || Irregular(r)) && y.worst == (if Irregular(r) then r.marketStatus else x.worst)
    && y.source == (if Rank(r.source) > Rank(x.source) then r.source else x.source)
    && y.timestamp == if t < x.timestamp then t else x.timestamp
  }

  lemma LabelStep(rs: seq<NavReading>, now: int, x: Running, r: NavReading, y: Running)
    requires Labelled(rs, now, x) && Relabelled(x, r, y)
    ensures Labelled(rs + [r], now, y)
  {
    assert (rs + [r])[..|rs|] == rs;
    assert r in rs + [r];
    assert forall q :: q in rs ==> q in rs + [r];
    RankIsStrength(r.source, x.source);
    forall q | q in rs ensures q.source == y.source || y.source in Weaker(q.source) {
      WeakerTrans(q.source, x.source, y.source);
    }
  }

  lemma FoldStep(hs: seq<Holding>, rs: seq<NavReading>, now: int, x: Running, h: Holding, r: NavReading, y: Running)
    requires Folded(hs, rs, now, x) && Relabelled(x, r, y)
    requires y.nav == x.nav + ValueAt(h, r.price) && y.summedBand == x.summedBand + ValueAt(h, r.confidence)
    ensures Folded(hs + [h], rs + [r], now, y)
  {
    SummedStep(hs, rs, x.nav, x.summedBand, h, r);
    LabelStep(rs, now, x, r, y);
  }

  /** One turn of the loop. */
  method Accumulate(x: Running, hs: seq<Holding>, i: nat, r: NavReading, ghost rs: seq<NavReading>, ghost now: int)
    returns (y: Running)
    requires i < |hs| && Folded(hs[..i], rs, now, x)
    ensures Folded(hs[..i + 1], rs + [r], now, y)
  {
    var h := hs[i];
    var held := NormalizeTo18(h.amount, h.decimals);
    var nav := x.nav + Times(held, r.price) / SCALE;
    var summedBand := x.summedBand + Times(held, r.confidence) / SCALE;
    var estimated, worst, source := x.estimated, x.worst, x.source;
    if r.estimated || r.marketStatus != Regular {
      estimated := true;
      worst := r.marketStatus;
    }
    if Rank(r.source) > Rank(source) {
      source := r.source;
    }
    var t := if r.timestamp != 0 then r.timestamp else x.timestamp;
    y := Running(nav, summedBand, estimated, worst, source, if t < x.timestamp then t else x.timestamp);
    assert hs[..i + 1] == hs[..i] + [h];
    FoldStep(hs[..i], rs, now, x, h, r, y);
  }

  /** One reading per holding, each from its own call. */
  predicate AreReads(calls: seq<Call>, staleThreshold: int, rs: seq<NavReading>) {
    |rs| == |calls| && forall i :: 0 <= i < |rs| ==> Read(calls[i], staleThreshold) == Some(rs[i])
  }

  method PriceHoldings(hs: seq<Holding>, calls: seq<Call>, staleThreshold: int, now: int)
    returns (out: Option<Running>, ghost rs: seq<NavReading>)
    requires |calls| == |hs|
    ensures out.None? ==> exists i :: 0 <= i < |calls| && Read(calls[i], staleThreshold).None?
    ensures out.Some? ==> AreReads(calls, staleThreshold, rs) && Folded(hs, rs, now, out.value)
  {
    rs := [];
    var x := Running(0, 0, false, Regular, Chainlink, now);
    var i := 0;
    while i < |hs|
      invariant 0 <= i <= |hs| && |rs| == i
      invariant forall j :: 0 <= j < i ==> Read(calls[j], staleThreshold) == Some(rs[j])
      invariant Folded(hs[..i], rs, now, x)
    {
      var reading, _ := GetReading(calls[i], staleThreshold);
      if reading.None? {
        return None, rs;
      }
      x := Accumulate(x, hs, i, reading.value, rs, now);
      rs := rs + [reading.value];
      i := i + 1;
    }
    assert hs[..|hs|] == hs;
    out := Some(x);
  }

  /** An unknown basket throws, and so does a failing sequencer gate. */
  method ComputeFromSignals(basket: Option<seq<Holding>>, calls: seq<Call>, staleThreshold: int, now: int,
                            estimatedBandBps: nat)
    returns (out: Option<NavResult>, ghost rs: seq<NavReading>)
    requires basket.Some? ==> |calls| == |basket.value|
    ensures out.None? <==> basket.None? || exists i :: 0 <= i < |calls| && Read(calls[i], staleThreshold).None?
    ensures out.Some? ==>
              AreReads(calls, staleThreshold, rs) && IsNav(basket.value, rs, now, estimatedBandBps, out.value)
  {
    if basket.None? {
      return None, [];
    }
    var x: Option<Running>;
    x, rs := PriceHoldings(basket.value, calls, staleThreshold, now);
    if x.None? {
      return None, rs;
    }
    var r := x.value;
    out := Some(NavResult(r.nav, BandOf(r.nav, r.summedBand, r.estimated, estimatedBandBps), r.worst, r.source,
                          r.estimated, r.timestamp));
  }

  // ---------- what is reported ----------

  /** A total is a sum of what the holdings are worth. */
  ghost predicate SumsWorth(hs: seq<Holding>, perToken: seq<nat>, vs: seq<nat>, total: nat) {
    && |hs| == |perToken| == |vs| && total == Sum(vs)
    && forall i :: 0 <= i < |hs| ==> Worth(hs[i], perToken[i], vs[i])
  }

  lemma {:induction false} TotalIsWorth(hs: seq<Holding>, perToken: seq<nat>) returns (vs: seq<nat>)
    requires |hs| == |perToken|
    ensures SumsWorth(hs, perToken, vs, Total(hs, perToken))
  {
    if hs == [] {
      vs := [];
    } else {
      var n := |hs| - 1;
      var pre := TotalIsWorth(hs[..n], perToken[..n]);
      ValueIsWorth(hs[n], perToken[n]);
      vs := pre + [ValueAt(hs[n], perToken[n])];
      assert vs[..n] == pre;
      forall i | 0 <= i < |hs| ensures Worth(hs[i], perToken[i], vs[i]) {
        if i < n {
          assert hs[..n][i] == hs[i] && perToken[..n][i] == perToken[i] && pre[i] == vs[i];
        }
      }
    }
  }

  predicate InBand(b: Band, actual: nat) { b.lower <= actual <= b.upper }

  function Off(nav: nat, actual: nat): (off: nat)
    ensures nav == actual + off || actual == nav + off
  {
    if actual < nav then nav - actual else actual - nav
  }

  /** The reported value is the sum of what each holding is worth at its price, and the reported band
      holds exactly the values that are off by the sum of what each is worth at its confidence, plus, for
      an estimate, the unfloored share of the value. */
  lemma NavIsWorth(hs: seq<Holding>, rs: seq<NavReading>, now: int, estimatedBandBps: nat, out: NavResult)
    returns (vs: seq<nat>, bs: seq<nat>)
    requires IsNav(hs, rs, now, estimatedBandBps, out)
    ensures SumsWorth(hs, PricesOf(rs), vs, out.nav)
    ensures SumsWorth(hs, ConfidencesOf(rs), bs, Sum(bs))
    ensures forall actual: nat ::
              InBand(out.band, actual) <==>
                || Off(out.nav, actual) <= Sum(bs)
                || (out.estimated && (Off(out.nav, actual) - Sum(bs)) * 10000 <= out.nav * estimatedBandBps)
  {
    vs := TotalIsWorth(hs, PricesOf(rs));
    bs := TotalIsWorth(hs, ConfidencesOf(rs));
    forall actual: nat
      ensures InBand(out.band, actual) <==>
                || Off(out.nav, actual) <= Sum(bs)
                || (out.estimated && (Off(out.nav, actual) - Sum(bs)) * 10000 <= out.nav * estimatedBandBps)
    {
      EstimateCoversIff(out.nav, Sum(bs), estimatedBandBps, actual);
      SettledCoversIff(out.nav, Sum(bs), estimatedBandBps, actual);
    }
  }

  // ---------- enclosure ----------

  lemma FloorSum(a: nat, b: nat, c: nat, s: nat)
    requires s > 0 && c <= a + b
    ensures c / s <= a / s + b / s + 1
  {
    var x, y, z := a / s, b / s, c / s;
    assert z * s <= c && a < x * s + s && b < y * s + s;
    assert (x + y + 2) * s == x * s + y * s + 2 * s;
    if z >= x + y + 2 {
      TimesMonotone(x + y + 2, z, s);
    }
  }

  lemma Spread(held: nat, a: nat, b: nat, c: nat)
    requires a <= b + c
    ensures Times(held, a) <= Times(held, b) + Times(held, c)
  {
    assert held * (b + c) == held * b + held * c;
    assert held * (b + c - a) >= 0;
  }

  /** A true price within the confidence of the reported one moves a holding's value by at most its
      band, and one unit for the floors. */
  lemma ValueMoves(h: Holding, price: nat, confidence: nat, actual: nat)
    requires actual <= price + confidence && price <= actual + confidence
    ensures ValueAt(h, actual) <= ValueAt(h, price) + ValueAt(h, confidence) + 1
    ensures ValueAt(h, price) <= ValueAt(h, actual) + ValueAt(h, confidence) + 1
  {
    var held := NormalizeTo18(h.amount, h.decimals);
    Spread(held, actual, price, confidence);
    Spread(held, price, actual, confidence);
    FloorSum(Times(held, price), Times(held, confidence), Times(held, actual), SCALE);
    FloorSum(Times(held, actual), Times(held, confidence), Times(held, price), SCALE);
  }

  lemma {:induction false} TotalMoves(hs: seq<Holding>, ps: seq<nat>, cs: seq<nat>, actual: seq<nat>)
    requires |hs| == |ps| == |cs| == |actual|
    requires forall i :: 0 <= i < |hs| ==> actual[i] <= ps[i] + cs[i] && ps[i] <= actual[i] + cs[i]
    ensures Total(hs, actual) <= Total(hs, ps) + Total(hs, cs) + |hs|
    ensures Total(hs, ps) <= Total(hs, actual) + Total(hs, cs) + |hs|
  {
    if hs == [] {
    } else {
      var n := |hs| - 1;
      TotalMoves(hs[..n], ps[..n], cs[..n], actual[..n]);
      ValueMoves(hs[n], ps[n], cs[n], actual[n]);
    }
  }

  /** If every true price lies within its reading's confidence, the true value lies in the reported
      band, up to one unit per holding. */
  lemma {:induction false} NavEncloses(hs: seq<Holding>, rs: seq<NavReading>, now: int, estimatedBandBps: nat,
                                       out: NavResult, actual: seq<nat>)
    requires IsNav(hs, rs, now, estimatedBandBps, out) && |actual| == |hs|
    requires forall i :: 0 <= i < |rs| ==>
               actual[i] <= rs[i].price + rs[i].confidence && rs[i].price <= actual[i] + rs[i].confidence
    ensures out.band.lower - |hs| <= Total(hs, actual) <= out.band.upper + |hs|
    ensures out.band.lower <= out.nav <= out.band.upper
  {
    TotalMoves(hs, PricesOf(rs), ConfidencesOf(rs), actual);
  }

  // ---------- the iron rule ----------

  /** From adapters to result: the value may be settled on exactly when, for every holding, the first
      reading on offer is Regular and fresh. */
  lemma IronRule(hs: seq<Holding>, calls: seq<Call>, staleThreshold: int, rs: seq<NavReading>, now: int,
                 estimatedBandBps: nat, out: NavResult)
    requires AreReads(calls, staleThreshold, rs) && IsNav(hs, rs, now, estimatedBandBps, out)
    ensures !out.estimated <==> forall i :: 0 <= i < |calls| ==>
              Winner(calls[i]).Some? && Settlement(Winner(calls[i]).value, calls[i].now, staleThreshold)
    ensures !out.estimated <==> out.marketStatus == Regular
  {
    forall i | 0 <= i < |calls|
      ensures Irregular(rs[i]) <==>
              !(Winner(calls[i]).Some? && Settlement(Winner(calls[i]).value, calls[i].now, staleThreshold))
      ensures Irregular(rs[i]) <==> rs[i].marketStatus != Regular
    {
      assert Read(calls[i], staleThreshold) == Some(rs[i]);
      ReadIsEstimatedIff(calls[i], staleThreshold);
    }
    WorstIsIrregular(rs);
    if AnyIrregular(rs) {
      var r :| r in rs && Irregular(r);
      var i :| 0 <= i < |rs| && rs[i] == r;
    } else {
      forall i | 0 <= i < |rs| ensures !Irregular(rs[i]) { assert rs[i] in rs; }
    }
  }

  lemma {:induction false} WorstIsIrregular(rs: seq<NavReading>)
    requires forall i :: 0 <= i < |rs| && Irregular(rs[i]) ==> rs[i].marketStatus != Regular
    ensures WorstStatus(rs) == Regular <==> !AnyIrregular(rs)
  {
    if rs == [] {
    } else {
      var pre, last := rs[..|rs| - 1], rs[|rs| - 1];
      WorstIsIrregular(pre);
      assert rs == pre + [last];
      if Irregular(last) {
        assert last in rs;
      }
    }
  }

  /** The market-status verdicts on the readings a basket was valued with. */
  function Resolutions(rs: seq<NavReading>): (parts: seq<StatusResolution>)
    ensures |parts| == |rs| &&
            forall i :: 0 <= i < |rs| ==> parts[i] == StatusResolution(rs[i].marketStatus, rs[i].estimated)
  {
    seq(|rs|, i requires 0 <= i < |rs| => StatusResolution(rs[i].marketStatus, rs[i].estimated))
  }

  lemma {:induction false} WorstIsLastIrregular(rs: seq<NavReading>)
    requires forall i :: 0 <= i < |rs| ==> (rs[i].estimated <==> rs[i].marketStatus != Regular)
    ensures WorstStatus(rs) == LastIrregular(Resolutions(rs))
    ensures AnyIrregular(rs) == AnyDegraded(Resolutions(rs))
  {
    var parts := Resolutions(rs);
    if rs == [] {
    } else {
      var n := |rs| - 1;
      WorstIsLastIrregular(rs[..n]);
      assert Resolutions(rs[..n]) == parts[..n];
    }
    if AnyIrregular(rs) {
      var r :| r in rs && Irregular(r);
      var i :| 0 <= i < |rs| && rs[i] == r;
      assert parts[i] in parts;
    }
    if AnyDegraded(parts) {
      var p :| p in parts && p.degraded;
      var i :| 0 <= i < |parts| && parts[i] == p;
      assert rs[i] in rs;
    }
  }

  /** Status and flag of the value are the fold of the per-token verdicts exactly for baskets that
      hold something: the empty basket counts as Regular here and as Unknown there. */
  lemma NavFoldsStatusIff(hs: seq<Holding>, calls: seq<Call>, staleThreshold: int, rs: seq<NavReading>, now: int,
                          estimatedBandBps: nat, out: NavResult)
    requires AreReads(calls, staleThreshold, rs) && IsNav(hs, rs, now, estimatedBandBps, out)
    ensures StatusResolution(out.marketStatus, out.estimated) == FoldOf(Resolutions(rs)) <==> hs != []
  {
    forall i | 0 <= i < |rs| ensures rs[i].estimated <==> rs[i].marketStatus != Regular {
      assert Read(calls[i], staleThreshold) == Some(rs[i]);
      ReadIsEstimatedIff(calls[i], staleThreshold);
    }
    WorstIsLastIrregular(rs);
  }
}
