/** From wizard weights to unit quantities to values to weights again, each step floored. */
module PreviewDeploy {
  import opened DecimalPrinter
  import opened FixedPoint

  /** A token with its decimals and its latest 18-decimal price (0: none known), read once to turn
      weights into quantities and once more to value them. */
  datatype Leg = Leg(token: string, price: nat, laterPrice: nat, decimals: nat)

  /** Quantities and the notional are 18-decimal, as parsed. */
  datatype Composition = Quantities(qty: seq<nat>) | Weights(notional: nat, weightsBps: seq<nat>)

  /** A breakdown row; the quantity is shown as `Printed` shows it. */
  datatype Row = Row(token: string, qty: nat, decimals: nat, valueUsd: nat, weightBps: nat) {
    function Printed(): string { FormatBase(qty, decimals) }
  }

  /** `Priced` leaves the rest to the simulated creation. */
  datatype Gate = LengthMismatch | PriceMissing | Priced

  datatype Preview = Preview(unitQty: seq<nat>, breakdown: seq<Row>, totalValueUsd: nat,
                             priceMissing: seq<string>, gate: Gate)

  function LengthOf(c: Composition): nat {
    match c
    case Quantities(qty) => |qty|
    case Weights(_, weightsBps) => |weightsBps|
  }

  /** The part of the notional a weight asks for. */
  function LegValue(notional: nat, weightBps: nat): nat { Over(Times(notional, weightBps), BPS) }

  /** Token base units for a leg, 0 without a price. */
  function UnitQty(l: Leg, notional: nat, weightBps: nat): nat {
    if l.price == 0 then 0 else Over(Times(LegValue(notional, weightBps), Pow10(l.decimals)), l.price)
  }

  function QtyValue(l: Leg, qty: nat): nat { Over(Times(qty, l.laterPrice), Pow10(l.decimals)) }

  function UnitQtys(legs: seq<Leg>, c: Composition): (qs: seq<nat>)
    requires LengthOf(c) == |legs|
    ensures |qs| == |legs|
  {
    match c
    case Quantities(qty) => qty
    case Weights(notional, weightsBps) =>
      seq(|legs|, i requires 0 <= i < |legs| => UnitQty(legs[i], notional, weightsBps[i]))
  }

  function Values(legs: seq<Leg>, qs: seq<nat>): (vs: seq<nat>)
    requires |qs| == |legs|
    ensures |vs| == |legs| && forall i :: 0 <= i < |legs| ==> vs[i] == QtyValue(legs[i], qs[i])
  {
    seq(|legs|, i requires 0 <= i < |legs| => QtyValue(legs[i], qs[i]))
  }

  function Unpriced(legs: seq<Leg>): seq<string> {
    if legs == [] then []
    else
      var last := legs[|legs| - 1];
      Unpriced(legs[..|legs| - 1]) + if last.price == 0 then [last.token] else []
  }

  /** One row per leg, in order, with its quantity, its value and its share of the total. */
  predicate IsBreakdown(rows: seq<Row>, legs: seq<Leg>, qs: seq<nat>) {
    && |rows| == |legs| == |qs|
    && var total := Sum(Values(legs, qs));
       forall i :: 0 <= i < |rows| ==>
         && rows[i].token == legs[i].token
         && rows[i].qty == qs[i] && rows[i].decimals == legs[i].decimals
         && rows[i].valueUsd == QtyValue(legs[i], qs[i])
         && rows[i].weightBps == WeightOf(rows[i].valueUsd, total)
  }

  method DeriveQuantities(legs: seq<Leg>, c: Composition) returns (unitQty: seq<nat>, priceMissing: seq<string>)
    requires LengthOf(c) == |legs|
    ensures unitQty == UnitQtys(legs, c)
    ensures priceMissing == if c.Weights? then Unpriced(legs) else []
  {
    unitQty, priceMissing := [], [];
    var i := 0;
    match c {
      case Quantities(qty) =>
        while i < |qty|
          invariant 0 <= i <= |qty| && unitQty == qty[..i]
        {
          unitQty := unitQty + [qty[i]];
          i := i + 1;
        }
      case Weights(notional, weightsBps) =>
        while i < |legs|
          invariant 0 <= i <= |legs| && unitQty == UnitQtys(legs, c)[..i]
          invariant priceMissing == Unpriced(legs[..i])
        {
          var l := legs[i];
          assert legs[..i + 1][..i] == legs[..i];
          if l.price == 0 {
            priceMissing := priceMissing + [l.token];
            unitQty := unitQty + [0];
          } else {
            var valueUsd := LegValue(notional, weightsBps[i]);
            unitQty := unitQty + [Over(Times(valueUsd, Pow10(l.decimals)), l.price)];
          }
          i := i + 1;
        }
        assert legs[..|legs|] == legs;
    }
  }

  /** A row before the weights are known. */
  function RowOf(l: Leg, qty: nat): Row {
    Row(l.token, qty, l.decimals, QtyValue(l, qty), 0)
  }

  /** The first pass: rows without weights, and the running total. */
  method ValueRows(legs: seq<Leg>, qs: seq<nat>) returns (rows: seq<Row>, total: nat)
    requires |qs| == |legs|
    ensures |rows| == |legs| && total == Sum(Values(legs, qs))
    ensures forall i :: 0 <= i < |rows| ==> rows[i] == RowOf(legs[i], qs[i])
  {
    ghost var values := Values(legs, qs);
    rows, total := [], 0;
    var i := 0;
    while i < |legs|
      invariant 0 <= i <= |legs| && |rows| == i
      invariant total == Sum(values[..i])
      invariant forall j :: 0 <= j < i ==> rows[j] == RowOf(legs[j], qs[j])
    {
      var row := RowOf(legs[i], qs[i]);
      SumTake(values, i);
      total := total + row.valueUsd;
      rows := rows + [row];
      i := i + 1;
    }
    assert values[..|legs|] == values;
  }

  function WeightOf(value: nat, total: nat): nat {
    if total > 0 then Over(Times(value, BPS), total) else 0
  }

  /** The second pass: weights once the total is known. */
  method WeighRows(rows: seq<Row>, total: nat) returns (weighed: seq<Row>)
    ensures |weighed| == |rows|
    ensures forall i :: 0 <= i < |rows| ==> weighed[i] == rows[i].(weightBps := WeightOf(rows[i].valueUsd, total))
  {
    weighed := rows;
    var i := 0;
    while i < |rows|
      invariant 0 <= i <= |rows| == |weighed|
      invariant forall j :: 0 <= j < i ==> weighed[j] == rows[j].(weightBps := WeightOf(rows[j].valueUsd, total))
      invariant forall j :: i <= j < |rows| ==> weighed[j] == rows[j]
    {
      weighed := weighed[i := weighed[i].(weightBps := WeightOf(weighed[i].valueUsd, total))];
      i := i + 1;
    }
  }

  method BreakDown(legs: seq<Leg>, qs: seq<nat>) returns (rows: seq<Row>, total: nat)
    requires |qs| == |legs|
    ensures IsBreakdown(rows, legs, qs) && total == Sum(Values(legs, qs))
  {
    rows, total := ValueRows(legs, qs);
    rows := WeighRows(rows, total);
  }

  /** Up to the point where the creation is simulated. A missing price gates weights, not quantities. */
  method PreviewOf(legs: seq<Leg>, c: Composition) returns (p: Preview)
    ensures p.gate == LengthMismatch <==> LengthOf(c) != |legs|
    ensures p.gate == LengthMismatch ==> p == Preview([], [], 0, [], LengthMismatch)
    ensures LengthOf(c) == |legs| ==>
              && p.unitQty == UnitQtys(legs, c) && IsBreakdown(p.breakdown, legs, p.unitQty)
              && p.totalValueUsd == Sum(Values(legs, p.unitQty))
              && p.priceMissing == (if c.Weights? then Unpriced(legs) else [])
              && (p.gate == PriceMissing <==> c.Weights? && exists l :: l in legs && l.price == 0)
  {
    if LengthOf(c) != |legs| {
      return Preview([], [], 0, [], LengthMismatch);
    }
    var unitQty, priceMissing := DeriveQuantities(legs, c);
    var breakdown, total := BreakDown(legs, unitQty);
    UnpricedEmptyIff(legs);
    var gated := c.Weights? && |priceMissing| > 0;
    p := Preview(unitQty, breakdown, total, priceMissing, if gated then PriceMissing else Priced);
  }

  lemma {:induction false} UnpricedEmptyIff(legs: seq<Leg>)
    ensures Unpriced(legs) == [] <==> forall l :: l in legs ==> l.price > 0
  {
    if legs == [] {
    } else {
      UnpricedEmptyIff(legs[..|legs| - 1]);
      assert legs == legs[..|legs| - 1] + [legs[|legs| - 1]];
    }
  }

  // ---------- what each number is ----------

  /** `tokens` are those of the legs without a price, at these positions. */
  predicate AreUnpriced(legs: seq<Leg>, at: seq<nat>, tokens: seq<string>) {
    && |at| == |tokens|
    && (forall k :: 0 <= k < |at| ==> at[k] < |legs| && legs[at[k]].price == 0 && tokens[k] == legs[at[k]].token)
    && (forall k, m :: 0 <= k < m < |at| ==> at[k] < at[m])
    && (forall i :: 0 <= i < |legs| && legs[i].price == 0 ==> i in at)
  }

  /** Reported missing are the tokens without a price, all of them and in order. */
  lemma {:induction false} UnpricedAre(legs: seq<Leg>) returns (at: seq<nat>)
    ensures AreUnpriced(legs, at, Unpriced(legs))
  {
    at := [];
    if legs == [] {
    } else {
      var n := |legs| - 1;
      at := UnpricedAre(legs[..n]);
      UnpricedSnoc(legs[..n], legs[n], at, Unpriced(legs[..n]));
      assert legs == legs[..n] + [legs[n]];
      at := if legs[n].price == 0 then at + [n] else at;
    }
  }

  lemma UnpricedSnoc(pre: seq<Leg>, l: Leg, at: seq<nat>, tokens: seq<string>)
    requires AreUnpriced(pre, at, tokens)
    ensures if l.price == 0 then AreUnpriced(pre + [l], at + [|pre|], tokens + [l.token])
            else AreUnpriced(pre + [l], at, tokens)
  {
    assert |pre| in at + [|pre|];
  }

  /** A weight asks for its part of the notional and gets the base units that part buys at the first
      price, each rounded down; nothing without a price. */
  lemma QuantitiesAre(legs: seq<Leg>, notional: nat, ws: seq<nat>, i: nat) returns (asked: nat)
    requires |ws| == |legs| && i < |legs|
    ensures IsFloor(asked, notional * ws[i], 10000)
    ensures var qty := UnitQtys(legs, Weights(notional, ws))[i];
            if legs[i].price == 0 then qty == 0 else IsFloor(qty, asked * Pow10(legs[i].decimals), legs[i].price)
  {
    asked := LegValue(notional, ws[i]);
    OverIsFloor(Times(notional, ws[i]), BPS);
    if legs[i].price > 0 {
      OverIsFloor(Times(asked, Pow10(legs[i].decimals)), legs[i].price);
    }
  }

  /** Each row is worth its quantity at the later price and weighs its share of the sum of all rows,
      each rounded down; rows worth nothing together weigh nothing. */
  lemma RowsAre(rows: seq<Row>, legs: seq<Leg>, qs: seq<nat>) returns (vs: seq<nat>)
    requires IsBreakdown(rows, legs, qs)
    ensures |vs| == |rows| && forall i :: 0 <= i < |rows| ==> vs[i] == rows[i].valueUsd
    ensures forall i :: 0 <= i < |rows| ==>
              IsFloor(rows[i].valueUsd, qs[i] * legs[i].laterPrice, Pow10(legs[i].decimals))
    ensures forall i :: 0 <= i < |rows| ==>
              if Sum(vs) > 0 then IsFloor(rows[i].weightBps, 10000 * vs[i], Sum(vs)) else rows[i].weightBps == 0
  {
    vs := Values(legs, qs);
    forall i | 0 <= i < |rows|
      ensures IsFloor(rows[i].valueUsd, qs[i] * legs[i].laterPrice, Pow10(legs[i].decimals))
    {
      OverIsFloor(Times(qs[i], legs[i].laterPrice), Pow10(legs[i].decimals));
    }
    if Sum(vs) > 0 {
      forall i | 0 <= i < |rows| ensures IsFloor(rows[i].weightBps, 10000 * vs[i], Sum(vs)) {
        OverIsFloor(Times(vs[i], BPS), Sum(vs));
      }
    }
  }

  // ---------- what the floors and a moving price cost ----------

  lemma SwapFactors(a: nat, b: nat, c: nat)
    ensures Times(Times(a, b), c) == Times(Times(a, c), b)
  {
    TimesAssociates(a, b, c);
    TimesAssociates(a, c, b);
    TimesCommutes(b, c);
  }

  lemma ScaledDown(asked: nat, price: nat, later: nat, unit: nat, qty: nat, got: nat)
    requires unit > 0 && Times(qty, price) <= Times(asked, unit) && Times(got, unit) <= Times(qty, later)
    ensures Times(got, price) <= Times(asked, later)
  {
    SwapFactors(got, price, unit);
    TimesMonotone(Times(got, unit), Times(qty, later), price);
    SwapFactors(qty, later, price);
    TimesMonotone(Times(qty, price), Times(asked, unit), later);
    SwapFactors(asked, unit, later);
    CancelLe(Times(got, price), Times(asked, later), unit);
  }

  lemma ScaledUp(asked: nat, price: nat, later: nat, unit: nat, qty: nat, got: nat, dust: nat)
    requires price > 0 && unit > 0
    requires Times(asked, unit) < Times(qty + 1, price) && Times(qty, later) < Times(got + 1, unit) &&
             later < Times(dust + 1, unit)
    ensures Times(asked, later) < Times(got + 2 + dust, price)
  {
    assert Times(qty + 1, later) == Times(qty, later) + later;
    assert Times(got + 2 + dust, unit) == Times(got + 1, unit) + Times(dust + 1, unit);
    SwapFactors(asked, later, unit);
    TimesMonotone(Times(asked, unit), Times(qty + 1, price), later);
    SwapFactors(qty + 1, price, later);
    assert Times(qty + 1, later) + 1 <= Times(got + 2 + dust, unit);
    TimesMonotone(Times(qty + 1, later) + 1, Times(got + 2 + dust, unit), price);
    assert (Times(qty + 1, later) + 1) * price == Times(qty + 1, later) * price + price;
    SwapFactors(got + 2 + dust, unit, price);
    CancelLt(Times(asked, later), Times(got + 2 + dust, price), unit);
  }

  /** Buying for a value and valuing what was bought gives the value moved with the price, short by at
      most two units and the price of one base unit. */
  lemma {:induction false} LegDrift(l: Leg, notional: nat, weightBps: nat)
    requires l.price > 0
    ensures var asked, got := LegValue(notional, weightBps), QtyValue(l, UnitQty(l, notional, weightBps));
            && Times(got, l.price) <= Times(asked, l.laterPrice)
            && Times(asked, l.laterPrice) < Times(got + 2 + Over(l.laterPrice, Pow10(l.decimals)), l.price)
  {
    var asked, unit := LegValue(notional, weightBps), Pow10(l.decimals);
    var qty := UnitQty(l, notional, weightBps);
    var got, dust := QtyValue(l, qty), Over(l.laterPrice, unit);
    FloorBounds(Times(asked, unit), l.price);
    FloorBounds(Times(qty, l.laterPrice), unit);
    FloorBounds(l.laterPrice, unit);
    assert Times(qty + 1, l.price) == Times(qty, l.price) + l.price;
    assert Times(got + 1, unit) == Times(got, unit) + unit;
    assert Times(dust + 1, unit) == Times(dust, unit) + unit;
    ScaledDown(asked, l.price, l.laterPrice, unit, qty, got);
    ScaledUp(asked, l.price, l.laterPrice, unit, qty, got, dust);
  }

  /** While the price does not rise nothing is gained; while it does not fall, at most one unit and the
      price of one base unit are lost. */
  lemma {:induction false} LegLoss(l: Leg, notional: nat, weightBps: nat)
    requires l.price > 0
    ensures var asked, got := LegValue(notional, weightBps), QtyValue(l, UnitQty(l, notional, weightBps));
            && (l.laterPrice <= l.price ==> got <= asked)
            && (l.price <= l.laterPrice ==> asked <= got + 1 + Over(l.laterPrice, Pow10(l.decimals)))
  {
    var asked, got := LegValue(notional, weightBps), QtyValue(l, UnitQty(l, notional, weightBps));
    LegDrift(l, notional, weightBps);
    TimesCommutes(asked, l.price);
    TimesCommutes(asked, l.laterPrice);
    if l.laterPrice <= l.price {
      TimesMonotone(l.laterPrice, l.price, asked);
      CancelLe(got, asked, l.price);
    }
    if l.price <= l.laterPrice {
      TimesMonotone(l.price, l.laterPrice, asked);
      CancelLt(asked, got + 2 + Over(l.laterPrice, Pow10(l.decimals)), l.price);
    }
  }

  /** The bound for a list of legs: one unit and the price of one base unit each. */
  function Dust(legs: seq<Leg>): nat {
    if legs == [] then 0
    else Dust(legs[..|legs| - 1]) + 1 + Over(legs[|legs| - 1].laterPrice, Pow10(legs[|legs| - 1].decimals))
  }

  predicate NoneRose(legs: seq<Leg>) { forall l :: l in legs ==> l.laterPrice <= l.price }

  predicate NoneFell(legs: seq<Leg>) { forall l :: l in legs ==> l.price <= l.laterPrice }

  /** The last leg and the legs before it. */
  lemma LastLeg(legs: seq<Leg>, notional: nat, ws: seq<nat>)
    requires |ws| == |legs| > 0
    ensures var n := |legs| - 1;
            && Sum(Values(legs, UnitQtys(legs, Weights(notional, ws))))
               == Sum(Values(legs[..n], UnitQtys(legs[..n], Weights(notional, ws[..n]))))
                  + QtyValue(legs[n], UnitQty(legs[n], notional, ws[n]))
            && Sum(Shares(ws, notional, BPS)) == Sum(Shares(ws[..n], notional, BPS)) + LegValue(notional, ws[n])
  {
    var n := |legs| - 1;
    var values := Values(legs, UnitQtys(legs, Weights(notional, ws)));
    assert values[..n] == Values(legs[..n], UnitQtys(legs[..n], Weights(notional, ws[..n])));
    assert Shares(ws, notional, BPS)[..n] == Shares(ws[..n], notional, BPS);
    TimesCommutes(ws[n], notional);
  }

  lemma {:induction false} LegsLoss(legs: seq<Leg>, notional: nat, ws: seq<nat>)
    requires |ws| == |legs| && forall l :: l in legs ==> l.price > 0
    ensures var got := Sum(Values(legs, UnitQtys(legs, Weights(notional, ws))));
            && (NoneRose(legs) ==> got <= Sum(Shares(ws, notional, BPS)))
            && (NoneFell(legs) ==> Sum(Shares(ws, notional, BPS)) <= got + Dust(legs))
    decreases |legs|
  {
    if legs == [] {
    } else {
      var n := |legs| - 1;
      assert legs[n] in legs && forall l :: l in legs[..n] ==> l in legs;
      LegsLoss(legs[..n], notional, ws[..n]);
      LegLoss(legs[n], notional, ws[n]);
      LastLeg(legs, notional, ws);
    }
  }

  /** Through all three floors: unless a price rose between the reads, the basket never costs more than
      its notional; unless one fell, it falls short by at most n - 1 units plus, per leg, one unit and
      the price of one base unit. */
  lemma {:induction false} WeightsKeepNotional(legs: seq<Leg>, notional: nat, ws: seq<nat>)
    requires |ws| == |legs| && Sum(ws) == 10000 && forall l :: l in legs ==> l.price > 0
    ensures var total := Sum(Values(legs, UnitQtys(legs, Weights(notional, ws))));
            && (NoneRose(legs) ==> total <= notional)
            && (NoneFell(legs) ==> notional <= total + (|legs| - 1) + Dust(legs))
  {
    LegsLoss(legs, notional, ws);
    SharesNearlySum(ws, notional);
  }

  lemma WeightsAreShares(rows: seq<Row>, legs: seq<Leg>, qs: seq<nat>, ws: seq<nat>)
    requires IsBreakdown(rows, legs, qs) && Sum(Values(legs, qs)) > 0
    requires |ws| == |rows| && forall i :: 0 <= i < |ws| ==> ws[i] == rows[i].weightBps
    ensures ws == Shares(Values(legs, qs), BPS, Sum(Values(legs, qs)))
  {
  }

  /** The displayed weights add up to 10000, less than one basis point per row short. */
  lemma {:induction false} WeightsNearlySum(rows: seq<Row>, legs: seq<Leg>, qs: seq<nat>, ws: seq<nat>)
    requires IsBreakdown(rows, legs, qs) && Sum(Values(legs, qs)) > 0
    requires |ws| == |rows| && forall i :: 0 <= i < |ws| ==> ws[i] == rows[i].weightBps
    ensures 10000 - |rows| < Sum(ws) <= 10000
  {
    WeightsAreShares(rows, legs, qs, ws);
    SharesNearlySum(Values(legs, qs), BPS);
  }

  /** Every row of a breakdown shows, under its own token, exactly the quantity it is valued by. */
  lemma RowsShowQuantities(rows: seq<Row>, legs: seq<Leg>, qs: seq<nat>, i: nat)
    requires IsBreakdown(rows, legs, qs) && i < |rows|
    ensures rows[i].token == legs[i].token && ReadsAs(rows[i].Printed(), legs[i].decimals, qs[i])
    ensures rows[i].valueUsd == QtyValue(legs[i], qs[i])
  {
    FormatBaseRoundTrip(qs[i], legs[i].decimals);
  }

  /** An entered quantity is parsed at 18 decimals and shown at the token's. What a row shows and what
      was entered for it are one number (compared at a scale that both reach) exactly for 0 and for
      tokens with 18 decimals. */
  lemma ShownAsEnteredIff(rows: seq<Row>, legs: seq<Leg>, entered: seq<nat>, i: nat, scale: nat)
    requires |entered| == |legs| && IsBreakdown(rows, legs, UnitQtys(legs, Quantities(entered))) && i < |rows|
    requires scale >= legs[i].decimals && scale >= 18
    ensures ReadsAs(rows[i].Printed(), legs[i].decimals, entered[i])
    ensures Scaled(Split(rows[i].Printed()), scale) == Times(entered[i], Pow10(scale - 18)) <==>
              entered[i] == 0 || legs[i].decimals == 18
  {
    RowsShowQuantities(rows, legs, entered, i);
    ScaledIff(Split(rows[i].Printed()), entered[i], legs[i].decimals, scale);
  }

  lemma ScaledIff(d: Decimal, qty: nat, decimals: nat, scale: nat)
    requires AllDigits(d.whole) && AllDigits(d.fraction) && |d.fraction| <= decimals && Scaled(d, decimals) == qty
    requires scale >= decimals && scale >= 18
    ensures Scaled(d, scale) == Times(qty, Pow10(scale - 18)) <==> qty == 0 || decimals == 18
  {
    ScaledFurther(d, decimals, scale);
    if qty > 0 && decimals != 18 {
      Pow10Differs(scale - decimals, scale - 18);
      TimesInjective(qty, Pow10(scale - decimals), Pow10(scale - 18));
    }
  }

  lemma {:induction false} Pow10Grows(m: nat, n: nat)
    requires m < n
    ensures Pow10(m) < Pow10(n)
  {
    if m + 1 == n {
    } else {
      Pow10Grows(m, n - 1);
    }
  }

  lemma Pow10Differs(m: nat, n: nat)
    requires m != n
    ensures Pow10(m) != Pow10(n)
  {
    if m < n {
      Pow10Grows(m, n);
    } else {
      Pow10Grows(n, m);
    }
  }

  lemma TimesInjective(a: nat, x: nat, y: nat)
    requires a > 0 && x != y
    ensures Times(a, x) != Times(a, y)
  {
    TimesCommutes(a, x);
    TimesCommutes(a, y);
    if Times(a, x) == Times(a, y) {
      CancelLe(x, y, a);
      CancelLe(y, x, a);
    }
  }

  lemma ScaledFurther(d: Decimal, decimals: nat, scale: nat)
    requires AllDigits(d.whole) && AllDigits(d.fraction) && |d.fraction| <= decimals <= scale
    ensures Scaled(d, scale) == Times(Scaled(d, decimals), Pow10(scale - decimals))
  {
    var more, rest := scale - decimals, decimals - |d.fraction|;
    Pow10Add(decimals, more);
    Pow10Add(rest, more);
    TimesAssociates(Number(d.whole), Pow10(decimals), Pow10(more));
    TimesAssociates(Number(d.fraction), Pow10(rest), Pow10(more));
    var x, y := Times(Number(d.whole), Pow10(decimals)), Times(Number(d.fraction), Pow10(rest));
    assert (x + y) * Pow10(more) == x * Pow10(more) + y * Pow10(more);
  }
}
