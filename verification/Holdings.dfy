/** A vault's holdings: held balances merged from two batches of reads, and target and current weights
    with the drift between them. Tokens are lower-case addresses. */
module Holdings {
  import opened FixedPoint
  import opened Options

  // ---------- the two-pass balance merge ----------

  /** The rule for one held token: the vault's holdingsOf, else its own balanceOf, else 0. */
  function BalanceRule(holdingsOf: Option<nat>, balanceOf: Option<nat>): nat {
    if holdingsOf.Some? then holdingsOf.value else if balanceOf.Some? then balanceOf.value else 0
  }

  /** The rule for a list of held tokens; of a token listed twice, the last one counts. */
  function HeldMap(held: seq<string>, holdingsOf: seq<Option<nat>>, balanceOf: seq<Option<nat>>): map<string, nat>
    requires |holdingsOf| == |balanceOf| == |held|
  {
    if held == [] then map[]
    else
      var n := |held| - 1;
      HeldMap(held[..n], holdingsOf[..n], balanceOf[..n])[held[n] := BalanceRule(holdingsOf[n], balanceOf[n])]
  }

  /** The positions whose first read failed, in order. */
  function Failures(holdingsOf: seq<Option<nat>>): (failed: seq<nat>)
    ensures forall k :: 0 <= k < |failed| ==> failed[k] < |holdingsOf|
  {
    if holdingsOf == [] then []
    else
      var n := |holdingsOf| - 1;
      Failures(holdingsOf[..n]) + if holdingsOf[n].None? then [n] else []
  }

  lemma {:induction false} FailuresPrefix(holdingsOf: seq<Option<nat>>, i: nat)
    requires i <= |holdingsOf|
    ensures Failures(holdingsOf[..i]) <= Failures(holdingsOf)
    decreases |holdingsOf|
  {
    if i == |holdingsOf| {
      assert holdingsOf[..i] == holdingsOf;
    } else {
      var pre := holdingsOf[..|holdingsOf| - 1];
      assert pre[..i] == holdingsOf[..i];
      FailuresPrefix(pre, i);
    }
  }

  lemma FailuresStep(holdingsOf: seq<Option<nat>>, i: nat)
    requires i < |holdingsOf|
    ensures Failures(holdingsOf[..i + 1]) == Failures(holdingsOf[..i]) + if holdingsOf[i].None? then [i] else []
    ensures var k := |Failures(holdingsOf[..i])|;
            holdingsOf[i].None? ==> k < |Failures(holdingsOf)| && Failures(holdingsOf)[k] == i
  {
    assert holdingsOf[..i + 1][..i] == holdingsOf[..i];
    FailuresPrefix(holdingsOf, i + 1);
  }

  method FallbackIndices(holdingsOf: seq<Option<nat>>) returns (failed: seq<nat>)
    ensures failed == Failures(holdingsOf)
  {
    failed := [];
    var i := 0;
    while i < |holdingsOf|
      invariant 0 <= i <= |holdingsOf| && failed == Failures(holdingsOf[..i])
    {
      FailuresStep(holdingsOf, i);
      if holdingsOf[i].None? {
        failed := failed + [i];
      }
      i := i + 1;
    }
    assert holdingsOf[..|holdingsOf|] == holdingsOf;
  }

  lemma HeldMapStep(held: seq<string>, holdingsOf: seq<Option<nat>>, balanceOf: seq<Option<nat>>, i: nat)
    requires |holdingsOf| == |balanceOf| == |held| && i < |held|
    ensures HeldMap(held[..i + 1], holdingsOf[..i + 1], balanceOf[..i + 1]) ==
            HeldMap(held[..i], holdingsOf[..i], balanceOf[..i])[held[i] := BalanceRule(holdingsOf[i], balanceOf[i])]
  {
    assert held[..i + 1][..i] == held[..i];
    assert holdingsOf[..i + 1][..i] == holdingsOf[..i];
    assert balanceOf[..i + 1][..i] == balanceOf[..i];
  }

  /** Only the failures are asked again, in one compacted batch; a cursor runs over its answers. What
      comes out follows the per-token rule, whatever the pattern of failures. */
  method MergeHeld(held: seq<string>, holdingsOf: seq<Option<nat>>, balanceOf: seq<Option<nat>>)
    returns (heldMap: map<string, nat>, asked: nat)
    requires |holdingsOf| == |balanceOf| == |held|
    ensures heldMap == HeldMap(held, holdingsOf, balanceOf)
    ensures asked == |Failures(holdingsOf)|
  {
    var fallbackIndices := FallbackIndices(holdingsOf);
    asked := |fallbackIndices|;
    var balanceFallbacks := seq(asked, k requires 0 <= k < asked => balanceOf[fallbackIndices[k]]);
    heldMap := map[];
    var fallbackCursor := 0;
    var i := 0;
    while i < |held|
      invariant 0 <= i <= |held|
      invariant fallbackCursor == |Failures(holdingsOf[..i])|
      invariant heldMap == HeldMap(held[..i], holdingsOf[..i], balanceOf[..i])
    {
      FailuresStep(holdingsOf, i);
      HeldMapStep(held, holdingsOf, balanceOf, i);
      if holdingsOf[i].Some? {
        heldMap := heldMap[held[i] := holdingsOf[i].value];
      } else {
        var br := balanceFallbacks[fallbackCursor];
        fallbackCursor := fallbackCursor + 1;
        heldMap := heldMap[held[i] := if br.Some? then br.value else 0];
      }
      i := i + 1;
    }
    assert held[..|held|] == held && holdingsOf[..|held|] == holdingsOf && balanceOf[..|held|] == balanceOf;
  }

  predicate Distinct(ts: seq<string>) {
    forall i, j :: 0 <= i < j < |ts| ==> ts[i] != ts[j]
  }

  /** Each distinct held token gets exactly its own balance, and nothing else gets any. */
  lemma {:induction false} HeldMapIsPerToken(held: seq<string>, holdingsOf: seq<Option<nat>>,
                                             balanceOf: seq<Option<nat>>)
    requires |holdingsOf| == |balanceOf| == |held| && Distinct(held)
    ensures forall t :: t in HeldMap(held, holdingsOf, balanceOf) <==> t in held
    ensures forall i :: 0 <= i < |held| ==>
              Lookup(HeldMap(held, holdingsOf, balanceOf), held[i]) == Some(BalanceRule(holdingsOf[i], balanceOf[i]))
  {
    if held == [] {
    } else {
      var n := |held| - 1;
      HeldMapIsPerToken(held[..n], holdingsOf[..n], balanceOf[..n]);
      assert held == held[..n] + [held[n]];
      forall i | 0 <= i < n
        ensures Lookup(HeldMap(held, holdingsOf, balanceOf), held[i]) == Some(BalanceRule(holdingsOf[i], balanceOf[i]))
      {
        assert held[..n][i] == held[i];
        assert Lookup(HeldMap(held[..n], holdingsOf[..n], balanceOf[..n]), held[..n][i])
          == Some(BalanceRule(holdingsOf[i], balanceOf[i]));
      }
    }
  }

  // ---------- weights and drift ----------

  /** A constituent with its recipe quantity, price and decimals. */
  datatype Constituent = Constituent(token: string, qty: nat, price: nat, decimals: nat)

  function ValueOf(c: Constituent, qty: nat): nat { Over(Times(qty, c.price), Pow10(c.decimals)) }

  function RecipeValues(cs: seq<Constituent>): (vs: seq<nat>)
    ensures |vs| == |cs| && forall i :: 0 <= i < |cs| ==> vs[i] == ValueOf(cs[i], cs[i].qty)
  {
    seq(|cs|, i requires 0 <= i < |cs| => ValueOf(cs[i], cs[i].qty))
  }

  function HeldQty(m: map<string, nat>, t: string): nat { if t in m then m[t] else 0 }

  function HeldValues(cs: seq<Constituent>, m: map<string, nat>): (vs: seq<nat>)
    ensures |vs| == |cs| && forall i :: 0 <= i < |cs| ==> vs[i] == ValueOf(cs[i], HeldQty(m, cs[i].token))
  {
    seq(|cs|, i requires 0 <= i < |cs| => ValueOf(cs[i], HeldQty(m, cs[i].token)))
  }

  /** Held values by token; of a token listed twice, the last one counts. */
  function HeldValueMap(cs: seq<Constituent>, vs: seq<nat>): map<string, nat>
    requires |vs| == |cs|
  {
    if cs == [] then map[] else HeldValueMap(cs[..|cs| - 1], vs[..|cs| - 1])[cs[|cs| - 1].token := vs[|cs| - 1]]
  }

  function Targets(cs: seq<Constituent>): (ws: seq<nat>)
    ensures |ws| == |cs|
  {
    var vs := RecipeValues(cs);
    if Sum(vs) > 0 then Shares(vs, BPS, Sum(vs)) else seq(|cs|, _ => 0)
  }

  /** Shares of what the vault holds; the targets when it holds nothing of value or cannot be read. */
  function Currents(cs: seq<Constituent>, held: Option<map<string, nat>>): (ws: seq<nat>)
    ensures |ws| == |cs|
  {
    if held.None? || Sum(HeldValues(cs, held.value)) == 0 then Targets(cs)
    else
      var vs := HeldValues(cs, held.value);
      var byToken := HeldValueMap(cs, vs);
      seq(|cs|, i requires 0 <= i < |cs| => Over(Times(HeldQty(byToken, cs[i].token), BPS), Sum(vs)))
  }

  datatype HoldingRow = HoldingRow(token: string, currentWeightBps: nat, targetWeightBps: nat, driftBps: int)

  method Total(vs: seq<nat>) returns (s: nat)
    ensures s == Sum(vs)
  {
    s := 0;
    var i := 0;
    while i < |vs|
      invariant 0 <= i <= |vs| && s == Sum(vs[..i])
    {
      SumTake(vs, i);
      s := s + vs[i];
      i := i + 1;
    }
    assert vs[..|vs|] == vs;
  }

  /** What reading the held tokens gives: nothing for other vault types, or when a read throws. */
  datatype HeldRead = NotRead | HeldRead(held: seq<string>, holdingsOf: seq<Option<nat>>, balanceOf: seq<Option<nat>>)

  function Balances(r: HeldRead): Option<map<string, nat>>
    requires r.HeldRead? ==> |r.holdingsOf| == |r.balanceOf| == |r.held|
  {
    match r
    case NotRead => None
    case HeldRead(held, holdingsOf, balanceOf) => Some(HeldMap(held, holdingsOf, balanceOf))
  }

  method CurrentWeights(cs: seq<Constituent>, r: HeldRead) returns (currents: seq<nat>)
    requires r.HeldRead? ==> |r.holdingsOf| == |r.balanceOf| == |r.held|
    ensures currents == Currents(cs, Balances(r))
  {
    if r.NotRead? {
      return Targets(cs);
    }
    var heldMap, _ := MergeHeld(r.held, r.holdingsOf, r.balanceOf);
    var heldValues := HeldValues(cs, heldMap);
    var heldSum := Total(heldValues);
    if heldSum == 0 {
      return Targets(cs);
    }
    var byToken := HeldValueMap(cs, heldValues);
    currents := [];
    var i := 0;
    while i < |cs|
      invariant 0 <= i <= |cs| && |currents| == i
      invariant forall j :: 0 <= j < i ==> currents[j] == Over(Times(HeldQty(byToken, cs[j].token), BPS), heldSum)
    {
      currents := currents + [Over(Times(HeldQty(byToken, cs[i].token), BPS), heldSum)];
      i := i + 1;
    }
  }

  /** One row per constituent, in order, with both weights and the drift from target to current. */
  predicate AreRows(rows: seq<HoldingRow>, cs: seq<Constituent>, currents: seq<nat>, targets: seq<nat>) {
    && |rows| == |cs| == |currents| == |targets|
    && forall i :: 0 <= i < |rows| ==>
         && rows[i].token == cs[i].token
         && rows[i].currentWeightBps == currents[i] && rows[i].targetWeightBps == targets[i]
         && rows[i].targetWeightBps + rows[i].driftBps == rows[i].currentWeightBps
  }

  method GetHoldings(cs: seq<Constituent>, r: HeldRead) returns (rows: seq<HoldingRow>)
    requires r.HeldRead? ==> |r.holdingsOf| == |r.balanceOf| == |r.held|
    ensures AreRows(rows, cs, Currents(cs, Balances(r)), Targets(cs))
  {
    var targets := Targets(cs);
    var currents := CurrentWeights(cs, r);
    rows := Assemble(cs, currents, targets);
  }

  method Assemble(cs: seq<Constituent>, currents: seq<nat>, targets: seq<nat>) returns (rows: seq<HoldingRow>)
    requires |currents| == |targets| == |cs|
    ensures AreRows(rows, cs, currents, targets)
  {
    rows := [];
    var i := 0;
    while i < |cs|
      invariant 0 <= i <= |cs| && |rows| == i
      invariant AreRows(rows, cs[..i], currents[..i], targets[..i])
    {
      var driftBps: int := currents[i] as int - targets[i] as int;
      rows := rows + [HoldingRow(cs[i].token, currents[i], targets[i], driftBps)];
      i := i + 1;
    }
    assert cs[..|cs|] == cs && currents[..|cs|] == currents && targets[..|cs|] == targets;
  }

  // ---------- what each value and weight is ----------

  /** The value of a quantity at the price of 10^decimals base units, floored. */
  ghost predicate IsValue(c: Constituent, qty: nat, v: nat) { IsFloor(v, qty * c.price, Pow10(c.decimals)) }

  /** A share in basis points, floored. */
  ghost predicate IsShare(w: nat, v: nat, total: nat) { IsFloor(w, 10000 * v, total) }

  lemma ValueIsFloor(c: Constituent, qty: nat)
    ensures IsValue(c, qty, ValueOf(c, qty))
  {
    OverIsFloor(Times(qty, c.price), Pow10(c.decimals));
  }

  lemma ShareIsFloor(v: nat, total: nat)
    requires total > 0
    ensures IsShare(Over(Times(v, BPS), total), v, total)
  {
    OverIsFloor(Times(v, BPS), total);
  }

  /** Each target weight is the share of its constituent's recipe value, 0 for a recipe worth nothing. */
  lemma TargetsAre(cs: seq<Constituent>) returns (vs: seq<nat>)
    ensures |vs| == |cs| && forall i :: 0 <= i < |cs| ==> IsValue(cs[i], cs[i].qty, vs[i])
    ensures forall i :: 0 <= i < |cs| ==>
              if Sum(vs) > 0 then IsShare(Targets(cs)[i], vs[i], Sum(vs)) else Targets(cs)[i] == 0
  {
    vs := RecipeValues(cs);
    forall i | 0 <= i < |cs| ensures IsValue(cs[i], cs[i].qty, vs[i]) {
      ValueIsFloor(cs[i], cs[i].qty);
    }
    if Sum(vs) > 0 {
      forall i | 0 <= i < |cs| ensures IsShare(Targets(cs)[i], vs[i], Sum(vs)) {
        ShareIsFloor(vs[i], Sum(vs));
      }
    }
  }

  /** Row `j` is the last one of row `i`'s token. */
  predicate LastTwin(cs: seq<Constituent>, i: int, j: int) {
    && 0 <= i < |cs| && 0 <= j < |cs| && cs[j].token == cs[i].token
    && forall k :: j < k < |cs| ==> cs[k].token != cs[i].token
  }

  lemma {:induction false} MapOfLast(cs: seq<Constituent>, vs: seq<nat>, i: int, j: int)
    requires |vs| == |cs| && LastTwin(cs, i, j)
    ensures HeldQty(HeldValueMap(cs, vs), cs[i].token) == vs[j]
  {
    var n := |cs| - 1;
    if j < n {
      assert cs[n].token != cs[i].token;
      assert LastTwin(cs[..n], j, j);
      MapOfLast(cs[..n], vs[..n], j, j);
    }
  }

  /** Each current weight is the share of the value held of its token, by the last row of that token;
      the target without held balances, or when they are worth nothing. */
  lemma CurrentsAre(cs: seq<Constituent>, held: Option<map<string, nat>>) returns (vs: seq<nat>)
    ensures held.None? ==> Currents(cs, held) == Targets(cs)
    ensures held.Some? ==>
              && |vs| == |cs|
              && (forall i :: 0 <= i < |cs| ==>
                    IsValue(cs[i], if cs[i].token in held.value then held.value[cs[i].token] else 0, vs[i]))
              && (Sum(vs) == 0 ==> Currents(cs, held) == Targets(cs))
              && (forall i, j :: Sum(vs) > 0 && LastTwin(cs, i, j) ==> IsShare(Currents(cs, held)[i], vs[j], Sum(vs)))
  {
    vs := [];
    if held.Some? {
      vs := HeldValues(cs, held.value);
      HeldValuesAre(cs, held.value);
      if Sum(vs) > 0 {
        HeldShares(cs, held.value, vs, Currents(cs, held));
      }
    }
  }

  lemma HeldValuesAre(cs: seq<Constituent>, m: map<string, nat>)
    ensures forall i :: 0 <= i < |cs| ==>
              IsValue(cs[i], if cs[i].token in m then m[cs[i].token] else 0, HeldValues(cs, m)[i])
  {
    forall i | 0 <= i < |cs|
      ensures IsValue(cs[i], if cs[i].token in m then m[cs[i].token] else 0, HeldValues(cs, m)[i])
    {
      ValueIsFloor(cs[i], HeldQty(m, cs[i].token));
    }
  }

  lemma HeldShares(cs: seq<Constituent>, m: map<string, nat>, vs: seq<nat>, currents: seq<nat>)
    requires vs == HeldValues(cs, m) && Sum(vs) > 0 && currents == Currents(cs, Some(m))
    ensures forall i, j :: LastTwin(cs, i, j) ==> IsShare(currents[i], vs[j], Sum(vs))
  {
    forall i, j | LastTwin(cs, i, j) ensures IsShare(currents[i], vs[j], Sum(vs)) {
      MapOfLast(cs, vs, i, j);
      ShareIsFloor(vs[j], Sum(vs));
    }
  }

  // ---------- what the weights add up to ----------

  /** Constituents under one key of the map have one held value, as they have when no two addresses
      differ in case only. */
  predicate TwinsAgree(cs: seq<Constituent>, vs: seq<nat>)
    requires |vs| == |cs|
  {
    forall i, j :: 0 <= i < j < |cs| && cs[i].token == cs[j].token ==> vs[i] == vs[j]
  }

  lemma {:induction false} HeldValueByToken(cs: seq<Constituent>, vs: seq<nat>, i: nat)
    requires |vs| == |cs| && TwinsAgree(cs, vs) && i < |cs|
    ensures HeldQty(HeldValueMap(cs, vs), cs[i].token) == vs[i]
  {
    var n := |cs| - 1;
    if i == n {
    } else {
      HeldValueByToken(cs[..n], vs[..n], i);
    }
  }

  /** The map gives every constituent its own held value exactly if twins agree. */
  lemma OwnValueIff(cs: seq<Constituent>, vs: seq<nat>)
    requires |vs| == |cs|
    ensures (forall i :: 0 <= i < |cs| ==> HeldQty(HeldValueMap(cs, vs), cs[i].token) == vs[i]) <==> TwinsAgree(cs, vs)
  {
    if TwinsAgree(cs, vs) {
      forall i | 0 <= i < |cs| ensures HeldQty(HeldValueMap(cs, vs), cs[i].token) == vs[i] {
        HeldValueByToken(cs, vs, i);
      }
    }
  }

  lemma CurrentsAreShares(cs: seq<Constituent>, m: map<string, nat>)
    requires TwinsAgree(cs, HeldValues(cs, m)) && Sum(HeldValues(cs, m)) > 0
    ensures Currents(cs, Some(m)) == Shares(HeldValues(cs, m), BPS, Sum(HeldValues(cs, m)))
  {
    var vs := HeldValues(cs, m);
    forall i | 0 <= i < |cs| ensures Currents(cs, Some(m))[i] == Shares(vs, BPS, Sum(vs))[i] {
      HeldValueByToken(cs, vs, i);
    }
  }

  /** Target weights of a recipe worth anything add up to 10000, less than one per row short. */
  lemma TargetsNearlySum(cs: seq<Constituent>)
    requires Sum(RecipeValues(cs)) > 0
    ensures 10000 - |cs| < Sum(Targets(cs)) <= 10000
  {
    SharesNearlySum(RecipeValues(cs), BPS);
  }

  /** So do current weights of holdings worth anything. */
  lemma CurrentsNearlySum(cs: seq<Constituent>, m: map<string, nat>)
    requires TwinsAgree(cs, HeldValues(cs, m)) && Sum(HeldValues(cs, m)) > 0
    ensures 10000 - |cs| < Sum(Currents(cs, Some(m))) <= 10000
  {
    CurrentsAreShares(cs, m);
    SharesNearlySum(HeldValues(cs, m), BPS);
  }

  function SumInt(xs: seq<int>): int {
    if xs == [] then 0 else SumInt(xs[..|xs| - 1]) + xs[|xs| - 1]
  }

  lemma {:induction false} DriftsSum(xs: seq<nat>, ys: seq<nat>, ds: seq<int>)
    requires |xs| == |ys| == |ds| && forall i :: 0 <= i < |ds| ==> ds[i] + ys[i] == xs[i]
    ensures SumInt(ds) == Sum(xs) - Sum(ys)
    decreases |ds|
  {
    if ds == [] {
    } else {
      var n := |ds| - 1;
      DriftsSum(xs[..n], ys[..n], ds[..n]);
    }
  }

  /** Drifts nearly cancel: with current weights from held balances they add up to strictly between
      -n and n, and otherwise every single one is 0. */
  lemma {:induction false} DriftsNearlyCancel(cs: seq<Constituent>, held: Option<map<string, nat>>, ds: seq<int>)
    requires |ds| == |cs| && (held.Some? ==> TwinsAgree(cs, HeldValues(cs, held.value)))
    requires var targets, currents := Targets(cs), Currents(cs, held);
             forall i :: 0 <= i < |ds| ==> ds[i] + targets[i] == currents[i]
    ensures Sum(RecipeValues(cs)) > 0 && held.Some? && Sum(HeldValues(cs, held.value)) > 0 ==> -|cs| < SumInt(ds) < |cs|
    ensures held.None? || Sum(HeldValues(cs, held.value)) == 0 ==> forall d :: d in ds ==> d == 0
  {
    if held.None? || Sum(HeldValues(cs, held.value)) == 0 {
    } else if Sum(RecipeValues(cs)) > 0 {
      DriftsSum(Currents(cs, held), Targets(cs), ds);
      TargetsNearlySum(cs);
      CurrentsNearlySum(cs, held.value);
    }
  }

  /** Twins must agree: of two constituents under one key the last one lends its held value to both,
      here the 0 of a row without a price. */
  lemma CaseTwinsLoseTheirWeight(t: string)
    ensures var cs, m := [Constituent(t, 1, 1, 0), Constituent(t, 1, 0, 0)], map[t := 1];
            && Sum(RecipeValues(cs)) == 1 && Sum(HeldValues(cs, m)) == 1
            && Targets(cs) == [10000, 0] && Currents(cs, Some(m)) == [0, 0]
  {
    var a, b, m := Constituent(t, 1, 1, 0), Constituent(t, 1, 0, 0), map[t := 1];
    var cs := [a, b];
    assert RecipeValues(cs) == [1, 0] && HeldValues(cs, m) == [1, 0];
    assert [1, 0][..1] == [1] && [1][..0] == [];
    assert Sum([1, 0]) == 1;
    assert cs[..1] == [a] && HeldValueMap([a], [1]) == HeldValueMap([], [])[t := 1] by { assert [a][..0] == []; }
    assert HeldValueMap(cs, [1, 0])[t] == 0;
  }
}
