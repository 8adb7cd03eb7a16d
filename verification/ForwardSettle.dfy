/** Preparing the filler before a settlement: allowances for managed vaults; for registry vaults the
    operator right and enough ERC-6909 claims, wrapped from real tokens one to one. */
module ForwardSettle {
  import opened FixedPoint
  import opened Options

  type Token = nat

  const APPROVE_THRESHOLD := 0x100_0000000000000000_0000000000000000_0000000000000000

  function Get(m: map<Token, nat>, t: Token): nat { if t in m then m[t] else 0 }

  /** The filler's balances and rights towards one vault and its queue. */
  datatype Filler = Filler(allowances: map<Token, nat>, claims: map<Token, nat>, inventory: map<Token, nat>,
                           isOperator: bool)

  /** The three transactions; the batch call's two arrays are one list of pairs. */
  datatype Tx =
    | ApproveConstituent(token: Token)
    | SetVaultOperator
    | WrapInventory(orders: seq<(Token, nat)>)

  /** What one approval does to a filler, and the transactions that takes, in order. */
  datatype Effect = Effect(filler: Filler, writes: seq<Tx>)

  /** A transaction's hash is returned for the last one sent; nothing sent is the zero hash. */
  function LastOf(writes: seq<Tx>): Option<Tx> {
    if writes == [] then None else Some(writes[|writes| - 1])
  }

  // ---------- what transactions do ----------

  function Wrap(f: Filler, t: Token, amount: nat): Option<Filler> {
    if amount > Get(f.inventory, t) then None
    else Some(f.(claims := f.claims[t := Get(f.claims, t) + amount],
                 inventory := f.inventory[t := Get(f.inventory, t) - amount]))
  }

  /** All amounts, or a revert. */
  function WrapAll(f: Filler, orders: seq<(Token, nat)>): Option<Filler> {
    if orders == [] then Some(f)
    else
      var r, last := WrapAll(f, orders[..|orders| - 1]), orders[|orders| - 1];
      if r.None? then None else Wrap(r.value, last.0, last.1)
  }

  /** The filler after a transaction; none if it reverts. */
  function Execute(f: Filler, tx: Tx): Option<Filler> {
    match tx
    case ApproveConstituent(t) => Some(f.(allowances := f.allowances[t := MAX_UINT256]))
    case SetVaultOperator => Some(f.(isOperator := true))
    case WrapInventory(orders) => WrapAll(f, orders)
  }

  function ExecuteAll(f: Filler, txs: seq<Tx>): Option<Filler> {
    if txs == [] then Some(f)
    else
      var r := ExecuteAll(f, txs[..|txs| - 1]);
      if r.None? then None else Execute(r.value, txs[|txs| - 1])
  }

  lemma ExecuteSnoc(f: Filler, txs: seq<Tx>, r: Filler, tx: Tx)
    requires ExecuteAll(f, txs) == Some(r)
    ensures ExecuteAll(f, txs + [tx]) == Execute(r, tx)
  {
    assert (txs + [tx])[..|txs|] == txs;
  }

  predicate Distinct(held: seq<Token>) {
    forall i, j :: 0 <= i < j < |held| ==> held[i] != held[j]
  }

  // ---------- managed vaults ----------

  function ApproveOne(e: Effect, t: Token): Effect {
    if Get(e.filler.allowances, t) >= APPROVE_THRESHOLD then e
    else Effect(e.filler.(allowances := e.filler.allowances[t := MAX_UINT256]), e.writes + [ApproveConstituent(t)])
  }

  function Managed(f: Filler, held: seq<Token>): Effect {
    if held == [] then Effect(f, []) else ApproveOne(Managed(f, held[..|held| - 1]), held[|held| - 1])
  }

  /** Every held token is approved, one that was stays as it was, no other allowance moves. */
  lemma {:induction false} ManagedApproves(f: Filler, held: seq<Token>, t: Token)
    ensures var after := Managed(f, held).filler;
            && Get(after.allowances, t)
               == (if t in held && Get(f.allowances, t) < APPROVE_THRESHOLD then MAX_UINT256 else Get(f.allowances, t))
            && (t in held ==> Get(after.allowances, t) >= APPROVE_THRESHOLD)
            && after.(allowances := f.allowances) == f
  {
    if held == [] {
    } else {
      ManagedApproves(f, held[..|held| - 1], t);
      assert held == held[..|held| - 1] + [held[|held| - 1]];
    }
  }

  /** In numbers: an allowance below 2^200 is renewed to the largest one there is, 2^256 - 1. */
  lemma RenewedBelow(f: Filler, held: seq<Token>, t: Token)
    ensures var before := if t in f.allowances then f.allowances[t] else 0;
            var after := Get(Managed(f, held).filler.allowances, t);
            if t in held && before < 0x100_000000000000_000000000000_000000000000_000000000000
            then after == 0xFFFFFFFFFFFFFFFF_FFFFFFFFFFFFFFFF_FFFFFFFFFFFFFFFF_FFFFFFFFFFFFFFFF
            else after == before
  {
    ManagedApproves(f, held, t);
  }

  /** The approvals a look at the allowances before the run would list. */
  function Approvals(f: Filler, held: seq<Token>): seq<Tx> {
    if held == [] then []
    else
      var last := held[|held| - 1];
      Approvals(f, held[..|held| - 1])
      + if Get(f.allowances, last) < APPROVE_THRESHOLD then [ApproveConstituent(last)] else []
  }

  /** One transaction per under-approved token, in the order of the tokens; together they have the
      effect. */
  lemma {:induction false} ManagedSends(f: Filler, held: seq<Token>)
    requires Distinct(held)
    ensures Managed(f, held).writes == Approvals(f, held)
    ensures ExecuteAll(f, Managed(f, held).writes) == Some(Managed(f, held).filler)
  {
    if held == [] {
    } else {
      var pre, last := held[..|held| - 1], held[|held| - 1];
      ManagedSends(f, pre);
      assert last !in pre;
      ManagedApproves(f, pre, last);
      ExecuteSnoc(f, Managed(f, pre).writes, Managed(f, pre).filler, ApproveConstituent(last));
    }
  }

  lemma {:induction false} NothingToApprove(f: Filler, held: seq<Token>)
    requires forall t :: t in held ==> Get(f.allowances, t) >= APPROVE_THRESHOLD
    ensures Managed(f, held) == Effect(f, [])
  {
    if held == [] {
    } else {
      var pre := held[..|held| - 1];
      assert held[|held| - 1] in held && forall t :: t in pre ==> t in held;
      NothingToApprove(f, pre);
    }
  }

  // ---------- registry vaults ----------

  /** Up to the vault's own holding, as far as real tokens go. */
  function TopUp(claims: nat, target: nat, inventory: nat): nat {
    if claims >= target then 0 else if target - claims < inventory then target - claims else inventory
  }

  /** What topping up does to the balances. */
  function ToppedUp(f: Filler, holdings: map<Token, nat>, held: seq<Token>): Filler {
    if held == [] then f else TopOne(ToppedUp(f, holdings, held[..|held| - 1]), holdings, held[|held| - 1])
  }

  function TopOne(f: Filler, holdings: map<Token, nat>, t: Token): Filler {
    var amount := TopUp(Get(f.claims, t), Get(holdings, t), Get(f.inventory, t));
    if amount == 0 then f
    else f.(claims := f.claims[t := Get(f.claims, t) + amount],
            inventory := f.inventory[t := Get(f.inventory, t) - amount])
  }

  predicate Provisioned(f: Filler, holdings: map<Token, nat>, held: seq<Token>) {
    forall t :: t in held ==> TopUp(Get(f.claims, t), Get(holdings, t), Get(f.inventory, t)) == 0
  }

  /** The batch: each held token that is short, with what there is to wrap for it. */
  function Shortfalls(f: Filler, holdings: map<Token, nat>, held: seq<Token>): seq<(Token, nat)> {
    if held == [] then []
    else
      var last := held[|held| - 1];
      var amount := TopUp(Get(f.claims, last), Get(holdings, last), Get(f.inventory, last));
      Shortfalls(f, holdings, held[..|held| - 1]) + if amount > 0 then [(last, amount)] else []
  }

  function Operation(f: Filler): seq<Tx> { if f.isOperator then [] else [SetVaultOperator] }

  function Batch(orders: seq<(Token, nat)>): seq<Tx> { if orders == [] then [] else [WrapInventory(orders)] }

  function Registry(f: Filler, holdings: map<Token, nat>, held: seq<Token>): Effect {
    Effect(ToppedUp(f, holdings, held).(isOperator := true), Operation(f) + Batch(Shortfalls(f, holdings, held)))
  }

  /** Per held token: claims rise to the smaller of the target and everything there is, never fall,
      and claims and real tokens together stay what they were; no other balance moves. */
  lemma {:induction false} TopUpConserves(f: Filler, holdings: map<Token, nat>, held: seq<Token>, t: Token)
    requires Distinct(held)
    ensures var r := ToppedUp(f, holdings, held);
            var claims, inventory, target := Get(f.claims, t), Get(f.inventory, t), Get(holdings, t);
            && Get(r.claims, t) + Get(r.inventory, t) == claims + inventory
            && (t in held && claims < target ==>
                  Get(r.claims, t) == if target < claims + inventory then target else claims + inventory)
            && (t !in held || claims >= target ==> Get(r.claims, t) == claims)
            && r.allowances == f.allowances && r.isOperator == f.isOperator
  {
    if held == [] {
    } else {
      var pre, last := held[..|held| - 1], held[|held| - 1];
      TopUpConserves(f, holdings, pre, t);
      assert held == pre + [last];
      assert last !in pre;
    }
  }

  lemma {:induction false} ProvisionedStays(f: Filler, holdings: map<Token, nat>, held: seq<Token>)
    requires Provisioned(f, holdings, held)
    ensures ToppedUp(f, holdings, held) == f
  {
    if held == [] {
    } else {
      var pre := held[..|held| - 1];
      assert held[|held| - 1] in held && forall t :: t in pre ==> t in held;
      ProvisionedStays(f, holdings, pre);
    }
  }

  /** A second run right after the first makes no write and changes nothing. */
  lemma RegistryIsFixpoint(f: Filler, holdings: map<Token, nat>, held: seq<Token>)
    requires Distinct(held)
    ensures var once := Registry(f, holdings, held).filler; Registry(once, holdings, held) == Effect(once, [])
  {
    var once := Registry(f, holdings, held).filler;
    forall t | t in held ensures TopUp(Get(once.claims, t), Get(holdings, t), Get(once.inventory, t)) == 0 {
      TopUpConserves(f, holdings, held, t);
    }
    ProvisionedStays(once, holdings, held);
    ShortfallsEmptyIff(once, holdings, held);
  }

  lemma ManagedIsFixpoint(f: Filler, held: seq<Token>)
    ensures var once := Managed(f, held).filler; Managed(once, held) == Effect(once, [])
  {
    var once := Managed(f, held).filler;
    forall t | t in held ensures Get(once.allowances, t) >= APPROVE_THRESHOLD {
      ManagedApproves(f, held, t);
    }
    NothingToApprove(once, held);
  }

  // ---------- what a create needs ----------

  /** Claims that settling a create of `n` shares takes: its part of the holding, rounded up. */
  function Needed(holding: nat, n: nat, supply: nat): nat
    requires supply > 0
  {
    Over(Times(holding, n) + (supply - 1), supply)
  }

  /** It is the least number of claims that is worth the part of the holding. */
  lemma NeededIsCeiling(holding: nat, n: nat, supply: nat, claims: nat)
    requires supply > 0
    ensures claims >= Needed(holding, n, supply) <==> claims * supply >= holding * n
  {
    var needed := Needed(holding, n, supply);
    FloorBounds(Times(holding, n) + (supply - 1), supply);
    if claims >= needed {
      TimesMonotone(needed, claims, supply);
    } else {
      TimesMonotone(claims + 1, needed, supply);
      assert (claims + 1) * supply == claims * supply + supply;
    }
  }

  lemma NeededAtMostHolding(holding: nat, n: nat, supply: nat)
    requires supply > 0 && n <= supply
    ensures Needed(holding, n, supply) <= holding
    ensures n == supply ==> Needed(holding, n, supply) == holding
  {
    TimesMonotone(n, supply, holding);
    TimesCommutes(holding, n);
    TimesCommutes(holding, supply);
    FloorBounds(Times(holding, n) + (supply - 1), supply);
    assert Times(holding + 1, supply) == Times(holding, supply) + supply;
    CancelLt(Needed(holding, n, supply), holding + 1, supply);
    if n == supply {
      CancelLt(holding, Needed(holding, n, supply) + 1, supply);
    }
  }

  /** After a top-up, a held token covers every create up to a doubling of the supply exactly when
      claims and real tokens together reached the vault's holding. */
  lemma CreatesCoveredIff(f: Filler, holdings: map<Token, nat>, held: seq<Token>, t: Token, supply: nat)
    requires Distinct(held) && t in held && supply > 0
    ensures var claims := Get(ToppedUp(f, holdings, held).claims, t);
            (forall n: nat :: n <= supply ==> Needed(Get(holdings, t), n, supply) <= claims)
            <==> Get(f.claims, t) + Get(f.inventory, t) >= Get(holdings, t)
  {
    TopUpConserves(f, holdings, held, t);
    var claims, h := Get(ToppedUp(f, holdings, held).claims, t), Get(holdings, t);
    NeededAtMostHolding(h, supply, supply);
    if claims >= h {
      forall n: nat | n <= supply ensures Needed(h, n, supply) <= claims {
        NeededAtMostHolding(h, n, supply);
      }
    } else {
      assert Needed(h, supply, supply) > claims;
    }
  }

  // ---------- what the batch does ----------

  lemma WrapSnoc(f: Filler, orders: seq<(Token, nat)>, r: Filler, t: Token, amount: nat)
    requires WrapAll(f, orders) == Some(r)
    ensures WrapAll(f, orders + [(t, amount)]) == Wrap(r, t, amount)
  {
    assert (orders + [(t, amount)])[..|orders|] == orders;
  }

  lemma WrapIsTopOne(f: Filler, r: Filler, holdings: map<Token, nat>, t: Token)
    requires Get(r.claims, t) == Get(f.claims, t) && Get(r.inventory, t) == Get(f.inventory, t)
    ensures var amount := TopUp(Get(f.claims, t), Get(holdings, t), Get(f.inventory, t));
            if amount == 0 then TopOne(r, holdings, t) == r else Wrap(r, t, amount) == Some(TopOne(r, holdings, t))
  {
  }

  lemma {:induction false} Untouched(f: Filler, holdings: map<Token, nat>, held: seq<Token>, t: Token)
    requires t !in held
    ensures var r := ToppedUp(f, holdings, held);
            Get(r.claims, t) == Get(f.claims, t) && Get(r.inventory, t) == Get(f.inventory, t)
  {
    if held == [] {
    } else {
      var pre := held[..|held| - 1];
      assert held == pre + [held[|held| - 1]];
      Untouched(f, holdings, pre, t);
    }
  }

  /** The batch never reverts, and tops up every held token. */
  lemma {:induction false} BatchTopsUp(f: Filler, holdings: map<Token, nat>, held: seq<Token>)
    requires Distinct(held)
    ensures WrapAll(f, Shortfalls(f, holdings, held)) == Some(ToppedUp(f, holdings, held))
  {
    if held == [] {
    } else {
      var pre, t := held[..|held| - 1], held[|held| - 1];
      var amount := TopUp(Get(f.claims, t), Get(holdings, t), Get(f.inventory, t));
      BatchTopsUp(f, holdings, pre);
      assert t !in pre;
      Untouched(f, holdings, pre, t);
      WrapIsTopOne(f, ToppedUp(f, holdings, pre), holdings, t);
      WrapSnoc(f, Shortfalls(f, holdings, pre), ToppedUp(f, holdings, pre), t, amount);
      assert Shortfalls(f, holdings, pre) + [] == Shortfalls(f, holdings, pre);
      assert ToppedUp(f, holdings, held) == TopOne(ToppedUp(f, holdings, pre), holdings, t);
    }
  }

  /** Nothing is left to wrap exactly when every held token is provisioned. */
  lemma {:induction false} ShortfallsEmptyIff(f: Filler, holdings: map<Token, nat>, held: seq<Token>)
    ensures Shortfalls(f, holdings, held) == [] <==> Provisioned(f, holdings, held)
  {
    if held == [] {
    } else {
      var pre, t := held[..|held| - 1], held[|held| - 1];
      ShortfallsEmptyIff(f, holdings, pre);
      assert held == pre + [t] && t in held && forall x :: x in held <==> x == t || x in pre;
      var amount := TopUp(Get(f.claims, t), Get(holdings, t), Get(f.inventory, t));
      assert Shortfalls(f, holdings, held) == [] <==> Shortfalls(f, holdings, pre) == [] && amount == 0;
    }
  }

  /** Becoming operator moves no balance. */
  lemma {:induction false} OperatorOnly(f: Filler, g: Filler, holdings: map<Token, nat>, held: seq<Token>)
    requires g == f.(isOperator := true)
    ensures ToppedUp(g, holdings, held) == ToppedUp(f, holdings, held).(isOperator := true)
  {
    if held == [] {
    } else {
      OperatorOnly(f, g, holdings, held[..|held| - 1]);
    }
  }

  lemma {:induction false} SameShortfalls(f: Filler, g: Filler, holdings: map<Token, nat>, held: seq<Token>)
    requires g == f.(isOperator := true)
    ensures Shortfalls(g, holdings, held) == Shortfalls(f, holdings, held)
  {
    if held == [] {
    } else {
      SameShortfalls(f, g, holdings, held[..|held| - 1]);
    }
  }

  /** The transactions of a registry run go through, and together have its effect. */
  lemma RegistrySends(f: Filler, holdings: map<Token, nat>, held: seq<Token>)
    requires Distinct(held)
    ensures ExecuteAll(f, Registry(f, holdings, held).writes) == Some(Registry(f, holdings, held).filler)
  {
    var g, orders := f.(isOperator := true), Shortfalls(f, holdings, held);
    BatchTopsUp(g, holdings, held);
    OperatorOnly(f, g, holdings, held);
    SameShortfalls(f, g, holdings, held);
    assert Operation(f) == [] || Operation(f)[..0] == [];
    assert ExecuteAll(f, Operation(f)) == Some(g);
    if orders == [] {
      assert Operation(f) + [] == Operation(f);
    } else {
      ExecuteSnoc(f, Operation(f), g, WrapInventory(orders));
    }
  }

  // ---------- the writer ----------

  /** The queue's kind and what the vault holds. */
  datatype Vault = Vault(hasQueue: bool, isRegistry: bool, held: seq<Token>, holdings: map<Token, nat>)

  class SettleWriter {
    var filler: Filler
    var sent: seq<Tx>
    const hasWallet: bool

    constructor (filler: Filler, hasWallet: bool)
      ensures this.filler == filler && sent == [] && this.hasWallet == hasWallet
    {
      this.filler, this.sent, this.hasWallet := filler, [], hasWallet;
    }

    /** Submits a transaction and waits until it is mined. */
    method Send(tx: Tx) returns (last: Option<Tx>)
      requires Execute(filler, tx).Some?
      modifies this
      ensures Some(filler) == Execute(old(filler), tx) && sent == old(sent) + [tx] && last == Some(tx)
    {
      match tx {
        case ApproveConstituent(t) => filler := filler.(allowances := filler.allowances[t := MAX_UINT256]);
        case SetVaultOperator => filler := filler.(isOperator := true);
        case WrapInventory(orders) => filler := WrapAll(filler, orders).value;
      }
      sent, last := sent + [tx], Some(tx);
    }

    /** Without a queue or a wallet nothing is done; otherwise the path of the vault's family is taken. */
    method Approve(v: Vault) returns (available: bool, last: Option<Tx>)
      requires Distinct(v.held)
      modifies this
      ensures available <==> v.hasQueue && hasWallet
      ensures var e := if !available then Effect(old(filler), [])
                       else if v.isRegistry then Registry(old(filler), v.holdings, v.held)
                       else Managed(old(filler), v.held);
              filler == e.filler && sent == old(sent) + e.writes && last == LastOf(e.writes)
    {
      if !v.hasQueue || !hasWallet {
        return false, None;
      }
      available := true;
      if v.isRegistry {
        last := ApproveRegistry(v.holdings, v.held);
      } else {
        last := ApproveManaged(v.held);
      }
    }

    method ApproveManaged(held: seq<Token>) returns (last: Option<Tx>)
      modifies this
      ensures var e := Managed(old(filler), held);
              filler == e.filler && sent == old(sent) + e.writes && last == LastOf(e.writes)
    {
      last := None;
      var i := 0;
      while i < |held|
        invariant 0 <= i <= |held|
        invariant var e := Managed(old(filler), held[..i]);
                  filler == e.filler && sent == old(sent) + e.writes && last == LastOf(e.writes)
      {
        assert held[..i + 1][..i] == held[..i];
        if Get(filler.allowances, held[i]) < APPROVE_THRESHOLD {
          last := Send(ApproveConstituent(held[i]));
        }
        i := i + 1;
      }
      assert held[..|held|] == held;
    }

    method ApproveRegistry(holdings: map<Token, nat>, held: seq<Token>) returns (last: Option<Tx>)
      requires Distinct(held)
      modifies this
      ensures var e := Registry(old(filler), holdings, held);
              filler == e.filler && sent == old(sent) + e.writes && last == LastOf(e.writes)
    {
      last := None;
      OperatorOnly(filler, filler.(isOperator := true), holdings, held);
      SameShortfalls(filler, filler.(isOperator := true), holdings, held);
      if !filler.isOperator {
        last := Send(SetVaultOperator);
      }
      BatchTopsUp(filler, holdings, held);
      var orders := CollectShortfalls(holdings, held);
      if orders != [] {
        last := Send(WrapInventory(orders));
      }
    }

    method Shortfall(holdings: map<Token, nat>, t: Token) returns (amount: nat)
      ensures amount == TopUp(Get(filler.claims, t), Get(holdings, t), Get(filler.inventory, t))
    {
      var claims, target, inventory := Get(filler.claims, t), Get(holdings, t), Get(filler.inventory, t);
      if claims >= target {
        return 0;
      }
      var shortfall := target - claims;
      amount := if shortfall < inventory then shortfall else inventory;
    }

    /** Reads balances token by token and lists what to wrap. */
    method CollectShortfalls(holdings: map<Token, nat>, held: seq<Token>) returns (orders: seq<(Token, nat)>)
      ensures orders == Shortfalls(filler, holdings, held)
    {
      orders := [];
      var i := 0;
      while i < |held|
        invariant 0 <= i <= |held| && orders == Shortfalls(filler, holdings, held[..i])
      {
        assert held[..i + 1][..i] == held[..i];
        var amount := Shortfall(holdings, held[i]);
        if amount > 0 {
          orders := orders + [(held[i], amount)];
        }
        i := i + 1;
      }
      assert held[..|held|] == held;
    }
  }
}
