/** Choosing a reading for one token: the fallback walk over registered adapters, the freshness
    verdict, and the fused alternative. */
module SignalRouter {
  import opened FixedPoint
  import opened Fusion
  import opened Options
  import opened OracleTypes

  // ---------- market status ----------

  datatype StatusResolution = StatusResolution(status: MarketStatus, degraded: bool)

  /** Degraded unless the feed says Regular and the reading is fresh; never Regular when degraded. */
  function Resolve(feedStatus: MarketStatus, readingTimestamp: int, now: int,
                   staleThreshold: int): (r: StatusResolution)
    ensures !r.degraded <==> feedStatus == Regular && now - readingTimestamp <= staleThreshold
    ensures r.status == Regular <==> !r.degraded
    ensures r.degraded ==> r.status == if feedStatus == Regular then Unknown else feedStatus
  {
    if feedStatus == Unknown then StatusResolution(Unknown, true)
    else if feedStatus != Regular then StatusResolution(feedStatus, true)
    else if now - readingTimestamp > staleThreshold then StatusResolution(Unknown, true)
    else StatusResolution(Regular, false)
  }

  /** The last status that is not Regular. */
  function LastIrregular(parts: seq<StatusResolution>): MarketStatus {
    if parts == [] then Regular
    else if parts[|parts| - 1].status != Regular then parts[|parts| - 1].status
    else LastIrregular(parts[..|parts| - 1])
  }

  predicate AnyDegraded(parts: seq<StatusResolution>) {
    exists p :: p in parts && p.degraded
  }

  /** Worst of the parts; nothing to fold is unknown. */
  function FoldOf(parts: seq<StatusResolution>): StatusResolution {
    if parts == [] then StatusResolution(Unknown, true) else StatusResolution(LastIrregular(parts), AnyDegraded(parts))
  }

  method Fold(parts: seq<StatusResolution>) returns (r: StatusResolution)
    ensures r == FoldOf(parts)
  {
    if parts == [] {
      return StatusResolution(Unknown, true);
    }
    var status, degraded := Regular, false;
    var i := 0;
    while i < |parts|
      invariant 0 <= i <= |parts|
      invariant status == LastIrregular(parts[..i]) && degraded == AnyDegraded(parts[..i])
    {
      assert parts[..i + 1] == parts[..i] + [parts[i]] && parts[..i + 1][..i] == parts[..i];
      if parts[i].degraded {
        degraded := true;
      }
      if parts[i].status != Regular {
        status := parts[i].status;
      }
      i := i + 1;
    }
    assert parts[..|parts|] == parts;
    r := StatusResolution(status, degraded);
  }

  // ---------- the fallback walk ----------

  const FALLBACK_ORDER: seq<OracleSource> := [Chainlink, Pyth, RedStone, DexTwap, PerpMark, LastClose]

  /** What an adapter does once its retries and its breaker are through. */
  datatype Outcome = Reads(reading: OracleReading) | Nothing | Throws

  datatype Adapter = Adapter(source: OracleSource, outcome: Outcome)

  datatype GateAnswer = SequencerUp | SequencerDown | GateThrows

  /** One getReading call: the adapters in registration order with what they do on this call, the
      sequencer gate's answer to the k-th check of this call, and the clock. */
  datatype Call = Call(adapters: seq<Adapter>, onChain: set<OracleSource>, gate: nat -> GateAnswer, now: int)

  datatype NavReading = NavReading(price: nat, confidence: nat, timestamp: int, marketStatus: MarketStatus,
                                   source: OracleSource, estimated: bool)

  /** The first registered adapter of a source. */
  function AdapterFor(adapters: seq<Adapter>, s: OracleSource): (a: Option<Adapter>)
    ensures a.None? <==> forall x :: x in adapters ==> x.source != s
    ensures a.Some? ==> a.value.source == s && exists i :: 0 <= i < |adapters| && adapters[i] == a.value &&
                                                           forall j :: 0 <= j < i ==> adapters[j].source != s
  {
    if adapters == [] then None
    else if adapters[0].source == s then Some(adapters[0])
    else
      var a := AdapterFor(adapters[1..], s);
      assert forall i :: 0 <= i < |adapters[1..]| ==> adapters[1..][i] == adapters[i + 1];
      assert forall x :: x in adapters <==> x == adapters[0] || x in adapters[1..];
      a
  }

  /** What a source offers when the sequencer is up, or not to be trusted. */
  function Offer(c: Call, up: bool, s: OracleSource): Option<OracleReading> {
    var a := AdapterFor(c.adapters, s);
    if a.Some? && (s in c.onChain ==> up) && a.value.outcome.Reads? then Some(a.value.outcome.reading) else None
  }

  /** The first offer along the sources. */
  function FirstOffer(c: Call, up: bool, sources: seq<OracleSource>): Option<OracleReading> {
    if sources == [] then None
    else if Offer(c, up, sources[0]).Some? then Offer(c, up, sources[0])
    else FirstOffer(c, up, sources[1..])
  }

  predicate AsksGate(c: Call, s: OracleSource) {
    AdapterFor(c.adapters, s).Some? && s in c.onChain
  }

  /** Whether the walk meets an on-chain source before an off-chain one answers. */
  predicate MeetsGate(c: Call, sources: seq<OracleSource>) {
    sources != [] && (AsksGate(c, sources[0]) || (Offer(c, false, sources[0]).None? && MeetsGate(c, sources[1..])))
  }

  function Synthesized(now: int): NavReading {
    NavReading(0, 0, now, Unknown, LastClose, true)
  }

  function Judged(r: OracleReading, now: int, staleThreshold: int): NavReading {
    var res := Resolve(r.marketStatus, r.timestamp, now, staleThreshold);
    NavReading(r.price, r.confidence, r.timestamp, res.status, r.source, res.degraded)
  }

  /** The first offer, judged; a synthesized estimate without any; failure if the gate itself fails. */
  function Read(c: Call, staleThreshold: int): Option<NavReading> {
    if MeetsGate(c, FALLBACK_ORDER) && c.gate(0) == GateThrows then None
    else
      var offer := FirstOffer(c, MeetsGate(c, FALLBACK_ORDER) && c.gate(0) == SequencerUp, FALLBACK_ORDER);
      Some(if offer.Some? then Judged(offer.value, c.now, staleThreshold) else Synthesized(c.now))
  }

  /** Without a gate check along the way, the sequencer does not matter. */
  lemma {:induction false} GateUnmet(c: Call, sources: seq<OracleSource>, up: bool)
    requires !MeetsGate(c, sources)
    ensures FirstOffer(c, up, sources) == FirstOffer(c, false, sources)
  {
    if sources == [] {
    } else {
      assert Offer(c, up, sources[0]) == Offer(c, false, sources[0]);
      if Offer(c, false, sources[0]).None? {
        GateUnmet(c, sources[1..], up);
      }
    }
  }

  /** The sequencer is asked at most once per call, and only if the walk meets an on-chain source. */
  method GetReading(c: Call, staleThreshold: int) returns (r: Option<NavReading>, checks: nat)
    ensures r == Read(c, staleThreshold)
    ensures checks == if MeetsGate(c, FALLBACK_ORDER) then 1 else 0
  {
    checks := 0;
    var sequencerOk: Option<bool> := None;
    var i := 0;
    while i < |FALLBACK_ORDER|
      invariant 0 <= i <= |FALLBACK_ORDER|
      invariant checks == if sequencerOk.Some? then 1 else 0
      invariant sequencerOk.None? ==> (MeetsGate(c, FALLBACK_ORDER) <==> MeetsGate(c, FALLBACK_ORDER[i..]))
      invariant sequencerOk.Some? ==> MeetsGate(c, FALLBACK_ORDER) && c.gate(0) != GateThrows
                                      && sequencerOk.value == (c.gate(0) == SequencerUp)
      invariant forall up :: (sequencerOk.Some? ==> up == sequencerOk.value) ==>
                  FirstOffer(c, up, FALLBACK_ORDER) == FirstOffer(c, up, FALLBACK_ORDER[i..])
    {
      var source := FALLBACK_ORDER[i];
      var rest := FALLBACK_ORDER[i..];
      assert rest[0] == source && rest[1..] == FALLBACK_ORDER[i + 1..];
      var adapter := AdapterFor(c.adapters, source);
      i := i + 1;
      if adapter.None? {
        continue;
      }
      if source in c.onChain {
        if sequencerOk.None? {
          var answer := c.gate(checks);
          checks := checks + 1;
          if answer == GateThrows {
            return None, checks;
          }
          sequencerOk := Some(answer == SequencerUp);
        }
        if !sequencerOk.value {
          continue;
        }
      }
      if !adapter.value.outcome.Reads? {
        continue;
      }
      var up := sequencerOk == Some(true);
      assert FirstOffer(c, up, FALLBACK_ORDER) == FirstOffer(c, up, rest) == Some(adapter.value.outcome.reading);
      return Some(Judged(adapter.value.outcome.reading, c.now, staleThreshold)), checks;
    }
    var up := sequencerOk == Some(true);
    assert FirstOffer(c, up, FALLBACK_ORDER) == FirstOffer(c, up, FALLBACK_ORDER[i..]);
    r := Some(Synthesized(c.now));
  }

  // ---------- what the walk promises ----------

  /** The reading that wins is the first one on offer in fallback order. */
  lemma {:induction false} FirstOfferIsFirst(c: Call, up: bool, sources: seq<OracleSource>)
    ensures FirstOffer(c, up, sources).Some? <==> exists i :: 0 <= i < |sources| && Offer(c, up, sources[i]).Some?
    ensures FirstOffer(c, up, sources).Some? ==>
              exists i :: 0 <= i < |sources| && Offer(c, up, sources[i]) == FirstOffer(c, up, sources)
                          && forall j :: 0 <= j < i ==> Offer(c, up, sources[j]).None?
  {
    if sources == [] {
    } else {
      var tl := sources[1..];
      FirstOfferIsFirst(c, up, tl);
      assert forall i :: 0 <= i < |tl| ==> tl[i] == sources[i + 1];
      if Offer(c, up, sources[0]).Some? {
        assert Offer(c, up, sources[0]) == FirstOffer(c, up, sources);
      } else if FirstOffer(c, up, tl).Some? {
        var i :| 0 <= i < |tl| && Offer(c, up, tl[i]) == FirstOffer(c, up, tl) &&
          forall j :: 0 <= j < i ==> Offer(c, up, tl[j]).None?;
        assert Offer(c, up, sources[i + 1]) == FirstOffer(c, up, sources);
        forall j | 0 <= j < i + 1 ensures Offer(c, up, sources[j]).None? {
          if j > 0 { assert sources[j] == tl[j - 1]; }
        }
      } else {
        forall i | 0 <= i < |sources| ensures Offer(c, up, sources[i]).None? {
          if i > 0 { assert sources[i] == tl[i - 1]; }
        }
      }
    }
  }

  /** The fallback order goes through all sources, from strong to weak. */
  lemma FallbackIsByStrength()
    ensures forall s :: s in FALLBACK_ORDER
    ensures forall i, j :: 0 <= i < j < |FALLBACK_ORDER| ==> FALLBACK_ORDER[j] in Weaker(FALLBACK_ORDER[i])
  {
    forall s: OracleSource ensures s in FALLBACK_ORDER {
      match s
      case Chainlink => assert FALLBACK_ORDER[0] == s;
      case Pyth => assert FALLBACK_ORDER[1] == s;
      case RedStone => assert FALLBACK_ORDER[2] == s;
      case DexTwap => assert FALLBACK_ORDER[3] == s;
      case PerpMark => assert FALLBACK_ORDER[4] == s;
      case LastClose => assert FALLBACK_ORDER[5] == s;
    }
  }

  /** The strongest source with an offer: every other one that offers is weaker. */
  predicate Strongest(c: Call, up: bool, s: OracleSource) {
    Offer(c, up, s).Some? && forall t :: t != s && Offer(c, up, t).Some? ==> t in Weaker(s)
  }

  /** Along sources listed from strong to weak the first offer is the strongest. */
  lemma FirstAlongIsStrongest(c: Call, up: bool, sources: seq<OracleSource>) returns (w: OracleSource)
    requires forall s :: s in sources
    requires forall i, j :: 0 <= i < j < |sources| ==> sources[j] in Weaker(sources[i])
    requires FirstOffer(c, up, sources).Some?
    ensures Strongest(c, up, w) && Offer(c, up, w) == FirstOffer(c, up, sources)
  {
    FirstOfferIsFirst(c, up, sources);
    var i :| 0 <= i < |sources| && Offer(c, up, sources[i]) == FirstOffer(c, up, sources) &&
      forall j :: 0 <= j < i ==> Offer(c, up, sources[j]).None?;
    w := sources[i];
    forall t | t != w && Offer(c, up, t).Some? ensures t in Weaker(w) {
      assert t in sources;
      var j :| 0 <= j < |sources| && sources[j] == t;
    }
  }

  lemma OneStrongest(c: Call, up: bool, s: OracleSource, t: OracleSource)
    requires Strongest(c, up, s) && Strongest(c, up, t)
    ensures s == t
  {
    NotBothWeaker(s, t);
  }

  /** The first offer is that of the strongest source, and there is none only if no source offers. */
  lemma FirstOfferIsStrongest(c: Call, up: bool)
    ensures FirstOffer(c, up, FALLBACK_ORDER).None? ==> forall s :: Offer(c, up, s).None?
    ensures forall s :: Strongest(c, up, s) ==> FirstOffer(c, up, FALLBACK_ORDER) == Offer(c, up, s)
    ensures FirstOffer(c, up, FALLBACK_ORDER).Some? ==> exists s :: Strongest(c, up, s)
  {
    FallbackIsByStrength();
    if FirstOffer(c, up, FALLBACK_ORDER).Some? {
      var w := FirstAlongIsStrongest(c, up, FALLBACK_ORDER);
      forall s | Strongest(c, up, s) ensures s == w { OneStrongest(c, up, s, w); }
    } else {
      FirstOfferIsFirst(c, up, FALLBACK_ORDER);
      forall s: OracleSource ensures Offer(c, up, s).None? {
        assert s in FALLBACK_ORDER;
        var j :| 0 <= j < |FALLBACK_ORDER| && FALLBACK_ORDER[j] == s;
      }
    }
  }

  lemma NotBothWeaker(s: OracleSource, t: OracleSource)
    ensures !(s in Weaker(t) && t in Weaker(s))
  {
  }

  /** A reading, once the sequencer has answered, comes from the strongest source with an offer; it is
      made up only if no source offers any. */
  lemma ReadIsStrongest(c: Call, staleThreshold: int)
    requires Read(c, staleThreshold).Some?
    ensures var r, up := Read(c, staleThreshold).value, c.gate(0) == SequencerUp;
            && (forall s :: Strongest(c, up, s) ==>
                  var o := Offer(c, up, s).value;
                  (r.price, r.confidence, r.timestamp, r.source) == (o.price, o.confidence, o.timestamp, o.source))
            && ((forall s :: Offer(c, up, s).None?) ==> r == NavReading(0, 0, c.now, Unknown, LastClose, true))
            && ((exists s :: Offer(c, up, s).Some?) ==> exists s :: Strongest(c, up, s))
  {
    var up := c.gate(0) == SequencerUp;
    ReadIsEstimatedIff(c, staleThreshold);
    FirstOfferIsStrongest(c, up);
    if Winner(c).Some? {
      var s :| Strongest(c, up, s);
    }
  }

  /** A reading on offer: Regular and no older than the threshold. */
  predicate Settlement(r: OracleReading, now: int, staleThreshold: int) {
    r.marketStatus == Regular && now - r.timestamp <= staleThreshold
  }

  /** The reading a call settles on, once the sequencer has answered; None without any. */
  function Winner(c: Call): Option<OracleReading> {
    FirstOffer(c, c.gate(0) == SequencerUp, FALLBACK_ORDER)
  }

  /** For every adapter behaviour and sequencer answer: a reading is not estimated exactly when the
      first reading on offer is Regular and fresh, and then it carries status Regular. A winner keeps
      its numbers, time and source, and its status unless it claims to be Regular and is not fresh;
      without a winner the reading is worth nothing. */
  lemma ReadIsEstimatedIff(c: Call, staleThreshold: int)
    requires Read(c, staleThreshold).Some?
    ensures var r, w := Read(c, staleThreshold).value, Winner(c);
            && (!r.estimated <==> w.Some? && Settlement(w.value, c.now, staleThreshold))
            && (r.marketStatus == Regular <==> !r.estimated)
            && (w.Some? ==>
                  && (r.price, r.confidence, r.timestamp, r.source)
                     == (w.value.price, w.value.confidence, w.value.timestamp, w.value.source)
                  && r.marketStatus
                     == if w.value.marketStatus == Regular && r.estimated then Unknown else w.value.marketStatus)
            && (w.None? ==>
                  (r.price, r.confidence, r.timestamp, r.marketStatus, r.source) == (0, 0, c.now, Unknown, LastClose))
  {
    if !MeetsGate(c, FALLBACK_ORDER) {
      GateUnmet(c, FALLBACK_ORDER, c.gate(0) == SequencerUp);
    }
  }

  /** With the sequencer down no on-chain source ever wins. */
  lemma DownMeansOffChain(c: Call)
    requires c.gate(0) == SequencerDown && Winner(c).Some?
    ensures exists s :: s !in c.onChain && AdapterFor(c.adapters, s).Some?
                        && AdapterFor(c.adapters, s).value.outcome == Reads(Winner(c).value)
  {
    FirstOfferIsFirst(c, false, FALLBACK_ORDER);
    var i :| 0 <= i < |FALLBACK_ORDER| && Offer(c, false, FALLBACK_ORDER[i]) == Winner(c);
    var s := FALLBACK_ORDER[i];
    assert s !in c.onChain;
  }

  // ---------- fusion mode ----------

  /** Every reading of every adapter, in registration order. */
  function Healthy(adapters: seq<Adapter>): seq<OracleReading> {
    if adapters == [] then []
    else
      var last := adapters[|adapters| - 1];
      Healthy(adapters[..|adapters| - 1]) + if last.outcome.Reads? then [last.outcome.reading] else []
  }

  function AsIs(r: OracleReading, estimated: bool): NavReading {
    NavReading(r.price, r.confidence, r.timestamp, r.marketStatus, r.source, estimated)
  }

  /** No limit configured means a limit of 0. */
  function LimitOf(maxDivergenceBps: Option<nat>): nat {
    if maxDivergenceBps.Some? then maxDivergenceBps.value else 0
  }

  /** The reading as NAV sees it, field by field. */
  predicate Carries(r: NavReading, x: OracleReading, estimated: bool) {
    && r.price == x.price && r.confidence == x.confidence && r.timestamp == x.timestamp
    && r.marketStatus == x.marketStatus && r.source == x.source && r.estimated == estimated
  }

  /** What fusion mode makes of readings: a single one stands as it is, estimated unless Regular; several
      are fused, estimated if they diverge. */
  ghost predicate IsFused(rs: seq<OracleReading>, limit: nat, r: NavReading) {
    if |rs| == 1 then Carries(r, rs[0], rs[0].marketStatus != Regular)
    else exists out :: IsFusion(rs, limit, out) && Carries(r, out.reading, out.diverged)
  }

  /** Throws without a reading. */
  method FuseToReading(adapters: seq<Adapter>, maxDivergenceBps: Option<nat>) returns (r: Option<NavReading>)
    ensures r.None? <==> Healthy(adapters) == []
    ensures r.Some? && maxDivergenceBps.Some? ==> IsFused(Healthy(adapters), maxDivergenceBps.value, r.value)
    ensures r.Some? && maxDivergenceBps.None? ==> IsFused(Healthy(adapters), 0, r.value)
  {
    var healthy: seq<OracleReading> := [];
    var i := 0;
    while i < |adapters|
      invariant 0 <= i <= |adapters|
      invariant healthy == Healthy(adapters[..i])
    {
      assert adapters[..i + 1][..i] == adapters[..i];
      if adapters[i].outcome.Reads? {
        healthy := healthy + [adapters[i].outcome.reading];
      }
      i := i + 1;
    }
    assert adapters[..|adapters|] == adapters;
    if healthy == [] {
      return None;
    }
    if |healthy| == 1 {
      return Some(AsIs(healthy[0], healthy[0].marketStatus != Regular));
    }
    var fused := FuseReadings(healthy, LimitOf(maxDivergenceBps));
    r := Some(AsIs(fused.value.reading, fused.value.diverged));
  }

  /** The status of the freshest reading, the first of them if several are. */
  ghost predicate FreshestIs(rs: seq<OracleReading>, status: MarketStatus) {
    exists f: nat :: IsFirstGreatest(Timestamps(rs), |rs|, f) && rs[f].marketStatus == status
  }

  lemma OneFreshest(rs: seq<OracleReading>, f: nat, g: nat)
    requires IsFirstGreatest(Timestamps(rs), |rs|, f) && IsFirstGreatest(Timestamps(rs), |rs|, g)
    ensures f == g
  {
    var ts := Timestamps(rs);
    assert ts[f] <= ts[g] <= ts[f];
  }

  lemma FusedStatus(rs: seq<OracleReading>, limit: nat, out: FusionOutput)
    requires IsFusion(rs, limit, out)
    ensures FreshestIs(rs, out.reading.marketStatus)
    ensures forall s :: FreshestIs(rs, s) ==> s == out.reading.marketStatus
  {
    var canonical: nat, f: nat :| IsLabelled(rs, out, canonical, f);
    forall s | FreshestIs(rs, s) ensures s == out.reading.marketStatus {
      var g: nat :| IsFirstGreatest(Timestamps(rs), |rs|, g) && rs[g].marketStatus == s;
      OneFreshest(rs, f, g);
    }
  }

  /** The freshest reading is one to settle on: Regular, and no older than the threshold. */
  ghost predicate FreshestSettles(rs: seq<OracleReading>, now: int, staleThreshold: int) {
    exists f: nat :: IsFirstGreatest(Timestamps(rs), |rs|, f) && Settlement(rs[f], now, staleThreshold)
  }

  lemma FusedSettles(rs: seq<OracleReading>, limit: nat, now: int, staleThreshold: int, out: FusionOutput)
    requires IsFusion(rs, limit, out)
    ensures Settlement(out.reading, now, staleThreshold) <==> FreshestSettles(rs, now, staleThreshold)
  {
    var canonical: nat, f: nat :| IsLabelled(rs, out, canonical, f);
    if FreshestSettles(rs, now, staleThreshold) {
      var g: nat :| IsFirstGreatest(Timestamps(rs), |rs|, g) && Settlement(rs[g], now, staleThreshold);
      OneFreshest(rs, f, g);
    }
  }

  lemma SingleSettles(x: OracleReading, now: int, staleThreshold: int)
    ensures FreshestSettles([x], now, staleThreshold) <==> Settlement(x, now, staleThreshold)
  {
    if Settlement(x, now, staleThreshold) {
      assert IsFirstGreatest(Timestamps([x]), 1, 0);
    }
  }

  /** What fusion mode asks of the readings before it calls the result settled. */
  predicate Passes(rs: seq<OracleReading>, limit: nat)
    requires rs != []
  {
    MedianOfSome(Prices(rs));
    if |rs| == 1 then rs[0].marketStatus == Regular
    else !StraysBeyond(rs, RobustMedian(Prices(rs)).value, limit)
  }

  lemma NotEstimatedIff(rs: seq<OracleReading>, limit: nat, r: NavReading)
    requires rs != [] && IsFused(rs, limit, r)
    ensures !r.estimated <==> Passes(rs, limit)
  {
    if |rs| > 1 {
      var out :| IsFusion(rs, limit, out) && Carries(r, out.reading, out.diverged);
      DivergedIff(rs, limit, out);
    }
  }

  /** Fusion mode never looks at age, and with several readings not at the market either. What it returns
      passes as not estimated, although the market-status rules degrade it, exactly when the freshest
      reading is not Regular and fresh, and a single reading is Regular, or several do not stray. */
  lemma FusionEscapesIff(rs: seq<OracleReading>, limit: nat, now: int, staleThreshold: int, r: NavReading)
    requires rs != [] && IsFused(rs, limit, r)
    ensures !r.estimated && Resolve(r.marketStatus, r.timestamp, now, staleThreshold).degraded <==>
              !FreshestSettles(rs, now, staleThreshold) && Passes(rs, limit)
  {
    NotEstimatedIff(rs, limit, r);
    if |rs| == 1 {
      assert rs == [rs[0]];
      SingleSettles(rs[0], now, staleThreshold);
    } else {
      var out :| IsFusion(rs, limit, out) && Carries(r, out.reading, out.diverged);
      FusedSettles(rs, limit, now, staleThreshold, out);
    }
  }

  /** Of these, the readings whose market is not even Regular: several, the freshest of them not Regular,
      none of which strays from the median by a basis point more than the limit. */
  lemma FusionPassesIrregularIff(rs: seq<OracleReading>, limit: nat, r: NavReading)
    requires rs != [] && IsFused(rs, limit, r)
    ensures !r.estimated && r.marketStatus != Regular <==>
              |rs| > 1 && !FreshestIs(rs, Regular) && Passes(rs, limit)
  {
    NotEstimatedIff(rs, limit, r);
    if |rs| > 1 {
      var out :| IsFusion(rs, limit, out) && Carries(r, out.reading, out.diverged);
      FusedStatus(rs, limit, out);
    }
  }

  /** For one: two equal readings that must not be settled on, of a closed market or too old, fuse into
      one that is not estimated and shows their status and time. */
  lemma AgreeingReadingsPass(x: OracleReading, limit: nat, now: int, staleThreshold: int, r: NavReading)
    requires !Settlement(x, now, staleThreshold) && IsFused([x, x], limit, r)
    ensures !r.estimated && r.marketStatus == x.marketStatus && r.timestamp == x.timestamp
    ensures Resolve(r.marketStatus, r.timestamp, now, staleThreshold).degraded
  {
    var out :| IsFusion([x, x], limit, out) && Carries(r, out.reading, out.diverged);
    TwinsAreTight(x, limit);
    NotEstimatedIff([x, x], limit, r);
    TwinsFuse(x, limit, out);
  }

  lemma TwinsFuse(x: OracleReading, limit: nat, out: FusionOutput)
    requires IsFusion([x, x], limit, out)
    ensures out.reading.marketStatus == x.marketStatus && out.reading.timestamp == x.timestamp
  {
  }

  lemma TwinsAreTight(x: OracleReading, limit: nat)
    ensures Passes([x, x], limit)
  {
    var ps := Prices([x, x]);
    assert ps == [x.price, x.price] && ps[1..] == [x.price] && [x.price][1..] == [];
    MedianWithinMajority(ps, x.price, x.price);
  }

  /** Leaving the limit out does not switch the verdict off. It means a limit of 0: several readings are
      estimated exactly when one strays a basis point from the median, and whatever a limit flags is
      flagged without one. */
  lemma NoLimitFlagsIff(rs: seq<OracleReading>, r: NavReading)
    requires |rs| > 1 && IsFused(rs, 0, r)
    ensures RobustMedian(Prices(rs)).Some?
    ensures r.estimated <==> StraysBeyond(rs, RobustMedian(Prices(rs)).value, 0)
    ensures forall limit: nat, limited :: IsFused(rs, limit, limited) && limited.estimated ==> r.estimated
  {
    NotEstimatedIff(rs, 0, r);
    MedianOfSome(Prices(rs));
    var median := RobustMedian(Prices(rs)).value;
    forall limit: nat, limited | IsFused(rs, limit, limited) && limited.estimated ensures r.estimated {
      NotEstimatedIff(rs, limit, limited);
      StraysFromLess(rs, median, limit);
    }
  }

  lemma StraysFromLess(rs: seq<OracleReading>, median: nat, limit: nat)
    requires StraysBeyond(rs, median, limit)
    ensures StraysBeyond(rs, median, 0)
  {
    var x :| x in rs && Distance(x.price, median) * BPS >= median * (limit + 1);
    assert median * (limit + 1) == median * limit + median * 1 && median * limit >= 0;
  }

  /** For one: a source one basis point away is flagged. */
  lemma NoLimitStillFlags(x: OracleReading, r: NavReading)
    requires x.price == 10000 && IsFused([x, x, x.(price := 10001)], 0, r)
    ensures r.estimated
  {
    var rs := [x, x, x.(price := 10001)];
    MedianOfPair(rs, 10000);
    NoLimitFlagsIff(rs, r);
    assert rs[2] in rs;
  }
}
