/** The indexer as it runs: a repository whose methods upsert rows, readers that collect logs in
    loops, and a tick that issues writes one by one until it is done or fails. */
module IndexerService {
  import opened Options
  import opened IndexerTypes
  import opened FillCutoffs
  import opened ForwardTickets
  import opened ForwardHistory
  import opened RegistryConstituents
  import opened TickPlan

  /** The database when only the first `n` of the writes happen. */
  function CutAfter(db: Db, ws: seq<Write>, n: nat): Db {
    ApplyWrites(db, if n < |ws| then ws[..n] else ws)
  }

  /** Two lists cut as one. */
  lemma CutConcat(db: Db, a: seq<Write>, b: seq<Write>, n: nat)
    ensures CutAfter(db, a + b, n) ==
            if n < |a| then CutAfter(db, a, n) else CutAfter(ApplyWrites(db, a), b, n - |a|)
  {
    if n < |a| {
      assert (a + b)[..n] == a[..n];
    } else if n < |a + b| {
      assert (a + b)[..n] == a + b[..n - |a|];
      ApplyWritesConcat(db, a, b[..n - |a|]);
    } else {
      ApplyWritesConcat(db, a, b);
    }
  }

  lemma CutFirst(db: Db, w: Write, rest: seq<Write>, n: nat)
    requires n > 0
    ensures CutAfter(db, [w] + rest, n) == CutAfter(ApplyWrite(db, w), rest, n - 1)
  {
    assert [w][1..] == [];
    CutConcat(db, [w], rest, n);
  }

  /** Where three phases in a row stop. */
  lemma CutThree(db: Db, a: seq<Write>, b: seq<Write>, c: seq<Write>, n: nat)
    ensures var r := CutAfter(db, a + b + c, n);
            var db1 := ApplyWrites(db, a);
            if n < |a| then r == CutAfter(db, a, n)
            else if n < |a| + |b| then r == CutAfter(db1, b, n - |a|)
            else r == CutAfter(ApplyWrites(db1, b), c, n - |a| - |b|)
  {
    CutConcat(db, a + b, c, n);
    if n < |a + b| {
      CutConcat(db, a, b, n);
    } else {
      ApplyWritesConcat(db, a, b);
    }
  }

  /** The first phase of a tick and the rest of its setup. */
  lemma SetupSplits(chain: Chain, env: TickEnv, db: Db, from: int, to: int, n: nat)
    ensures var baskets := BasketWrites(chain.creations, from, to);
            var db1 := ApplyWrites(db, baskets);
            var recipes := RecipeWrites(db1, chain, from, to);
            var rest := recipes + GenesisWrites(ApplyWrites(db1, recipes), env);
            var ws := SetupWrites(chain, env, db, from, to);
            && |ws| == |baskets| + |rest|
            && CutAfter(db, ws, n) == if n < |baskets| then CutAfter(db, baskets, n)
               else CutAfter(db1, rest, n - |baskets|)
  {
    var baskets := BasketWrites(chain.creations, from, to);
    var db1 := ApplyWrites(db, baskets);
    var recipes := RecipeWrites(db1, chain, from, to);
    var genesis := GenesisWrites(ApplyWrites(db1, recipes), env);
    assert baskets + (recipes + genesis) == baskets + recipes + genesis;
    CutConcat(db, baskets, recipes + genesis, n);
  }

  lemma CutOne(db: Db, w: Write, n: nat)
    ensures CutAfter(db, [w], n) == if n == 0 then db else ApplyWrite(db, w)
  {
    assert [w][..0] == [] && [w][0] == w && [w][1..] == [];
    assert ApplyWrites(db, [w]) == ApplyWrites(ApplyWrite(db, w), [w][1..]);
  }

  /** Read-model tables, keyed as their unique constraints say. */
  class Repository {
    var baskets: map<Address, BasketRow>
    var constituents: map<(Address, Address), nat>
    var tickets: map<TicketKey, TicketRow>
    var events: map<LogKey, EventRow>
    var activity: map<LogKey, ActivityRow>
    var checkpoint: Option<int>

    function Snapshot(): Db
      reads this
    {
      Db(baskets, constituents, ForwardTables(tickets, events, activity), checkpoint)
    }

    constructor ()
      ensures Snapshot() == EMPTY_DB
    {
      baskets, constituents := map[], map[];
      tickets, events, activity := map[], map[], map[];
      checkpoint := None;
    }

    method UpsertConstituents(vault: Address, recipe: Recipe)
      modifies this`constituents
      ensures constituents == UpsertRows(old(constituents), vault, recipe)
    {
      var i := 0;
      while i < |recipe|
        invariant 0 <= i <= |recipe|
        invariant UpsertRows(constituents, vault, recipe[i..]) == UpsertRows(old(constituents), vault, recipe)
      {
        assert recipe[i..][1..] == recipe[i + 1..];
        constituents := constituents[(vault, recipe[i].0) := recipe[i].1];
        i := i + 1;
      }
    }

    method UpsertBasketWithConstituents(l: CreationLog)
      modifies this
      ensures Snapshot() == ApplyWrite(old(Snapshot()), UpsertBasket(l))
      ensures l.vaultType == Registry ==> constituents == old(constituents)
      ensures l.vaultType != Registry ==>
                forall t, q: nat :: Listed(l.constituents, t, q) ==> Lookup(constituents, (l.vault, t)) == Some(q)
    {
      ghost var db := Snapshot();
      baskets := baskets[l.vault := BasketRow(l.vaultType, l.root)];
      if l.vaultType != Registry {
        UpsertConstituents(l.vault, l.constituents);
      }
      forall t, q: nat | l.vaultType != Registry && Listed(l.constituents, t, q)
        ensures Lookup(constituents, (l.vault, t)) == Some(q)
      {
        BasketUpsertIs(db, l, (l.vault, t), q);
      }
    }

    method ReplaceRegistryConstituents(vault: Address, recipe: Recipe)
      modifies this
      ensures Snapshot() == ApplyWrite(old(Snapshot()), ReplaceConstituents(vault, recipe))
    {
      constituents := Prune(constituents, vault, recipe);
      UpsertConstituents(vault, recipe);
    }

    method ApplyForwardEvent(e: TicketEvent)
      modifies this
      ensures Snapshot() == ApplyWrite(old(Snapshot()), ForwardWrite(e))
    {
      var key := TicketOf(e);
      var owner := e.owner;
      var request := e.kind == CreateRequested || e.kind == RedeemRequested;
      if !request {
        owner := if key in tickets then tickets[key].owner else "";
      }
      var remaining := if e.kind == Settled || e.kind == Cancelled then 0 else e.remaining;
      if key in tickets && !request {
        var row := tickets[key].(status := StatusOf(e.kind), remaining := remaining, cutoffMs := e.cutoffMs);
        tickets := tickets[key := row];
      } else {
        var kind := if e.kind == RedeemRequested then Redeem else Create;
        tickets := tickets[key := TicketRow(e.vault, e.owner, kind, e.amount, remaining, StatusOf(e.kind), e.cutoffMs)];
      }
      events := events[EventKey(e) := EventRow(e.queue, e.vault, e.ticketId, e.kind, e.payload, e.timestampMs)];
      if owner != "" {
        activity := activity[EventKey(e) := ActivityRow(owner, e.vault, e.kind, e.payload, e.block, e.timestampMs)];
      }
    }

    method SaveCheckpoint(block: int)
      modifies this
      ensures Snapshot() == ApplyWrite(old(Snapshot()), SetCheckpoint(block))
    {
      checkpoint := Some(block);
    }

    method Perform(w: Write)
      modifies this
      ensures Snapshot() == ApplyWrite(old(Snapshot()), w)
    {
      match w
      case UpsertBasket(l) => UpsertBasketWithConstituents(l);
      case ReplaceConstituents(v, r) => ReplaceRegistryConstituents(v, r);
      case ForwardWrite(e) => ApplyForwardEvent(e);
      case SetCheckpoint(b) => SaveCheckpoint(b);
    }

    /** Performs the writes in order; `budget` is the number of writes until the first failure. */
    method PerformAll(ws: seq<Write>, budget: nat) returns (left: nat, ok: bool)
      modifies this
      ensures ok <==> budget >= |ws|
      ensures left == if ok then budget - |ws| else 0
      ensures Snapshot() == CutAfter(old(Snapshot()), ws, budget)
    {
      var i := 0;
      while i < |ws| && i < budget
        invariant 0 <= i <= |ws| && i <= budget
        invariant Snapshot() == ApplyWrites(old(Snapshot()), ws[..i])
      {
        Perform(ws[i]);
        assert ws[..i + 1] == ws[..i] + [ws[i]];
        ApplyWritesConcat(old(Snapshot()), ws[..i], [ws[i]]);
        assert [ws[i]][1..] == [];
        i := i + 1;
      }
      assert ws[..|ws|] == ws;
      ok := i == |ws|;
      left := budget - i;
    }
  }

  // ---------- readers ----------

  /** Position of a log on the chain, as one number. */
  function Ord(l: RecipeLog): nat { l.block * 0x1_0000_0000 + l.logIndex }

  lemma OrdIsChainOrder(a: RecipeLog, b: RecipeLog)
    requires a.logIndex < 0x1_0000_0000 && b.logIndex < 0x1_0000_0000
    ensures Ord(a) < Ord(b) <==> Before(a, b)
  {
    if a.block < b.block {
      assert (a.block + 1) * 0x1_0000_0000 <= b.block * 0x1_0000_0000;
    } else if b.block < a.block {
      assert (b.block + 1) * 0x1_0000_0000 <= a.block * 0x1_0000_0000;
    }
  }

  /** No log of the vault in the range comes after `l`. */
  ghost predicate IsLatest(ls: seq<RecipeLog>, v: Address, from: int, to: int, l: RecipeLog) {
    l in ls && InRange(l, v, from, to) && forall x :: x in ls && InRange(x, v, from, to) ==> !Before(l, x)
  }

  lemma {:induction false} LatestIsNewest(ls: seq<RecipeLog>, v: Address, from: int, to: int, l: RecipeLog)
    requires InChainOrder(ls) && IsLatest(ls, v, from, to, l)
    ensures NewestIn(ls, v, from, to) == Some(l)
  {
    var n := NewestIn(ls, v, from, to).value;
    var i :| 0 <= i < |ls| && ls[i] == l;
    NewestIsLast(ls, v, from, to, i);
  }

  lemma {:induction false} NewestIsLast(ls: seq<RecipeLog>, v: Address, from: int, to: int, i: nat)
    requires InChainOrder(ls) && i < |ls| && IsLatest(ls, v, from, to, ls[i])
    ensures NewestIn(ls, v, from, to) == Some(ls[i])
    decreases |ls|
  {
    var last := ls[|ls| - 1];
    if i < |ls| - 1 {
      assert Before(ls[i], last);
      assert last in ls && !InRange(last, v, from, to);
      var pre := ls[..|ls| - 1];
      assert pre[i] == ls[i] && forall x :: x in pre ==> x in ls;
      NewestIsLast(pre, v, from, to, i);
    }
  }

  lemma LatestStep(ls: seq<RecipeLog>, v: Address, from: int, to: int, prev: RecipeLog, l: RecipeLog)
    requires IsLatest(ls, v, from, to, prev)
    ensures IsLatest(ls + [l], v, from, to, if InRange(l, v, from, to) && Before(prev, l) then l else prev)
  {
  }

  /** The map of latest logs and its insertion order, after the logs `ls`. */
  ghost predicate Collected(ls: seq<RecipeLog>, reg: set<Address>, from: int, to: int,
                            order: seq<Address>, latest: map<Address, RecipeLog>)
  {
    && order == Scheduling(ls, reg, from, to)
    && (forall v :: v in latest <==> v in order)
    && (forall v :: v in latest ==> v in reg && IsLatest(ls, v, from, to, latest[v]))
  }

  lemma CollectNew(ls: seq<RecipeLog>, reg: set<Address>, from: int, to: int,
                   order: seq<Address>, latest: map<Address, RecipeLog>, l: RecipeLog)
    requires Collected(ls, reg, from, to, order, latest)
    requires l.vault in reg && from <= l.block <= to && l.vault !in latest
    ensures Collected(ls + [l], reg, from, to, order + [l.vault], latest[l.vault := l])
  {
    SchedulingMembers(ls, reg, from, to);
    assert (ls + [l])[..|ls|] == ls;
    assert NewestIn(ls, l.vault, from, to).None?;
    forall v | v in latest ensures IsLatest(ls + [l], v, from, to, latest[v]) {
      LatestStep(ls, v, from, to, latest[v], l);
    }
  }

  lemma CollectOther(ls: seq<RecipeLog>, reg: set<Address>, from: int, to: int,
                     order: seq<Address>, latest: map<Address, RecipeLog>, l: RecipeLog)
    requires Collected(ls, reg, from, to, order, latest)
    requires l.vault in reg && from <= l.block <= to ==> l.vault in latest
    ensures var replaced := l.vault in latest && InRange(l, l.vault, from, to) && Before(latest[l.vault], l);
            Collected(ls + [l], reg, from, to, order, if replaced then latest[l.vault := l] else latest)
  {
    assert (ls + [l])[..|ls|] == ls;
    forall v | v in latest
      ensures IsLatest(ls + [l], v, from, to, if InRange(l, v, from, to) && Before(latest[v], l) then l else latest[v])
    {
      LatestStep(ls, v, from, to, latest[v], l);
    }
  }

  lemma CollectedUpdates(ls: seq<RecipeLog>, reg: set<Address>, from: int, to: int,
                         order: seq<Address>, latest: map<Address, RecipeLog>, us: seq<Update>)
    requires Collected(ls, reg, from, to, order, latest)
    requires |us| == |order|
    requires forall j :: 0 <= j < |us| ==> order[j] in latest && us[j] == Update(order[j], latest[order[j]].recipe)
    ensures forall u :: u in us ==>
              u.vault in reg && exists l :: IsLatest(ls, u.vault, from, to, l) && l.recipe == u.recipe
    ensures forall l :: l in ls && l.vault in reg && from <= l.block <= to ==> exists u :: u in us && u.vault == l.vault
  {
    SchedulingMembers(ls, reg, from, to);
    forall l | l in ls && l.vault in reg && from <= l.block <= to ensures exists u :: u in us && u.vault == l.vault {
      assert InRange(l, l.vault, from, to);
      var j :| 0 <= j < |order| && order[j] == l.vault;
      assert us[j] in us;
    }
    forall u | u in us
      ensures u.vault in reg && exists l :: IsLatest(ls, u.vault, from, to, l) && l.recipe == u.recipe
    {
      var j :| 0 <= j < |us| && us[j] == u;
      assert IsLatest(ls, u.vault, from, to, latest[u.vault]);
    }
  }

  lemma CollectedInOrder(ls: seq<RecipeLog>, reg: set<Address>, from: int, to: int,
                         order: seq<Address>, latest: map<Address, RecipeLog>, us: seq<Update>)
    requires InChainOrder(ls) && Collected(ls, reg, from, to, order, latest)
    requires |us| == |order|
    requires forall j :: 0 <= j < |us| ==> order[j] in latest && us[j] == Update(order[j], latest[order[j]].recipe)
    ensures us == RecipeUpdates(ls, reg, from, to)
  {
    forall j | 0 <= j < |order| ensures us[j] == RecipeUpdates(ls, reg, from, to)[j] {
      LatestIsNewest(ls, order[j], from, to, latest[order[j]]);
    }
  }

  /** Last write wins per vault by (block, logIndex), in whatever order the logs arrive; for logs in
      chain order these are the updates the tick's plan expects. */
  method GetRegistryRecipeLogs(ls: seq<RecipeLog>, reg: set<Address>, from: int, to: int) returns (us: seq<Update>)
    requires forall l :: l in ls ==> l.logIndex < 0x1_0000_0000
    ensures forall u :: u in us ==>
              u.vault in reg && exists l :: IsLatest(ls, u.vault, from, to, l) && l.recipe == u.recipe
    ensures forall l :: l in ls && l.vault in reg && from <= l.block <= to ==> exists u :: u in us && u.vault == l.vault
    ensures InChainOrder(ls) ==> us == RecipeUpdates(ls, reg, from, to)
  {
    var latest: map<Address, RecipeLog> := map[];
    var order: seq<Address> := [];
    var i := 0;
    while i < |ls|
      invariant 0 <= i <= |ls|
      invariant Collected(ls[..i], reg, from, to, order, latest)
    {
      var l := ls[i];
      assert ls[..i + 1] == ls[..i] + [l];
      if l.vault !in reg || !(from <= l.block <= to) {
        CollectOther(ls[..i], reg, from, to, order, latest, l);
      } else {
        if l.vault !in latest {
          CollectNew(ls[..i], reg, from, to, order, latest, l);
          order, latest := order + [l.vault], latest[l.vault := l];
        } else {
          var prev := latest[l.vault];
          assert IsLatest(ls[..i], l.vault, from, to, prev);
          OrdIsChainOrder(prev, l);
          CollectOther(ls[..i], reg, from, to, order, latest, l);
          if Ord(l) > Ord(prev) {
            latest := latest[l.vault := l];
          }
        }
      }
      i := i + 1;
    }
    assert ls[..|ls|] == ls;
    us := seq(|order|, j requires 0 <= j < |order| =>
                assert order[j] in order; Update(order[j], latest[order[j]].recipe));
    CollectedUpdates(ls, reg, from, to, order, latest, us);
    if InChainOrder(ls) {
      CollectedInOrder(ls, reg, from, to, order, latest, us);
    }
  }

  /** The creations one factory event reports. */
  method GetCreated(cs: seq<CreationLog>, ty: VaultType, from: int, to: int) returns (out: seq<CreationLog>)
    ensures out == Created(cs, ty, from, to)
  {
    out := [];
    var i := 0;
    while i < |cs|
      invariant 0 <= i <= |cs| && out + Created(cs[i..], ty, from, to) == Created(cs, ty, from, to)
    {
      assert cs[i..][1..] == cs[i + 1..];
      if cs[i].vaultType == ty && from <= cs[i].block <= to {
        out := out + [cs[i]];
      }
      i := i + 1;
    }
  }

  /** The five factory events, one after another. */
  method GetCreations(cs: seq<CreationLog>, from: int, to: int) returns (out: seq<CreationLog>)
    ensures out == Creations(cs, from, to)
  {
    var basic := GetCreated(cs, Basic, from, to);
    var managed := GetCreated(cs, Managed, from, to);
    var committed := GetCreated(cs, Committed, from, to);
    var rebalance := GetCreated(cs, Rebalance, from, to);
    var registry := GetCreated(cs, Registry, from, to);
    out := basic + managed + committed + rebalance + registry;
  }

  /** Forward logs of one queue, kind by kind, decoded as they are pushed; decoding a fill reads its
      ticket's cutoff. */
  method GetForwardQueueLogs(ls: seq<ForwardLog>, cutoffs: map<LogKey, nat>, queue: Address, vault: Address,
                             from: int, to: int)
    returns (out: seq<TicketEvent>)
    ensures out == QueueEvents(Seen(ls, cutoffs), vault, queue, from, to)
  {
    var c := PushKind(ls, cutoffs, queue, vault, from, to, CreateRequested);
    var r := PushKind(ls, cutoffs, queue, vault, from, to, RedeemRequested);
    var p := PushKind(ls, cutoffs, queue, vault, from, to, PartialFill);
    var s := PushKind(ls, cutoffs, queue, vault, from, to, Settled);
    var x := PushKind(ls, cutoffs, queue, vault, from, to, Cancelled);
    out := c + r + p + s + x;
  }

  lemma PushStep(ls: seq<ForwardLog>, l: ForwardLog, queue: Address, from: int, to: int, kind: EventKind)
    ensures Select(QueueLogs(ls + [l], queue, from, to), OfKind(kind)) ==
            Select(QueueLogs(ls, queue, from, to), OfKind(kind))
            + if l.queue == queue && from <= l.block <= to && KindOf(l.args) == kind then [l] else []
  {
    SelectConcat(ls, [l], InQueue(queue, from, to));
    SelectConcat(QueueLogs(ls, queue, from, to), Select([l], InQueue(queue, from, to)), OfKind(kind));
    assert [l][1..] == [];
  }

  method PushKind(ls: seq<ForwardLog>, cutoffs: map<LogKey, nat>, queue: Address, vault: Address,
                  from: int, to: int, kind: EventKind)
    returns (out: seq<TicketEvent>)
    ensures out == DecodeAll(vault, Select(QueueLogs(Seen(ls, cutoffs), queue, from, to), OfKind(kind)))
  {
    out := [];
    var i := 0;
    while i < |ls|
      invariant 0 <= i <= |ls|
      invariant out == DecodeAll(vault, Select(QueueLogs(Seen(ls[..i], cutoffs), queue, from, to), OfKind(kind)))
    {
      var l := SeenLog(ls[i], cutoffs);
      assert Seen(ls[..i + 1], cutoffs) == Seen(ls[..i], cutoffs) + [l];
      PushStep(Seen(ls[..i], cutoffs), l, queue, from, to, kind);
      if l.queue == queue && from <= l.block <= to && KindOf(l.args) == kind {
        out := out + [Decode(vault, l)];
      }
      i := i + 1;
    }
    assert ls[..|ls|] == ls;
  }

  // ---------- the tick ----------

  lemma CutTick(startBlock: nat, chain: Chain, db: Db, env: TickEnv, budget: nat)
    ensures var from := From(startBlock, db, env);
            var ws := Plan(chain, env, db, from, To(from, env.head));
            var r := TickPlan.Tick(startBlock, chain, db, Attempt(env, budget));
            var completes := Completes(startBlock, chain, db, Attempt(env, budget));
            if HasWork(startBlock, db.checkpoint, env) then
              r == CutAfter(db, ws, budget) && (completes <==> budget >= |ws|)
            else r == db && !completes
  {
    if !HasWork(startBlock, db.checkpoint, env) {
      IdleTick(startBlock, chain, db, Attempt(env, budget));
    }
  }

  /** The registry vaults without constituents, in the order the database lists them. */
  function Needing(db: Db, vaults: seq<Address>): (vs: seq<Address>)
    ensures forall v :: v in vs ==> v in db.baskets
  {
    if vaults == [] then []
    else if NeedsGenesis(db, vaults[0]) then [vaults[0]] + Needing(db, vaults[1..])
    else Needing(db, vaults[1..])
  }

  function GenesisUpdate(baskets: map<Address, BasketRow>, env: TickEnv, v: Address): Update
    requires v in baskets
  {
    Update(v, GenesisOffer(env, baskets[v].root, v))
  }

  function Offered(baskets: map<Address, BasketRow>, env: TickEnv, vs: seq<Address>): seq<Write>
    requires forall v :: v in vs ==> v in baskets
  {
    if vs == [] then [] else Replacements([GenesisUpdate(baskets, env, vs[0])]) + Offered(baskets, env, vs[1..])
  }

  lemma ReplacementsOne(u: Update)
    ensures Replacements([u]) == if u.recipe != [] then [ReplaceConstituents(u.vault, u.recipe)] else []
  {
    assert [u][1..] == [];
  }

  lemma ReplacementsCons(u: Update, us: seq<Update>)
    ensures Replacements([u] + us) == Replacements([u]) + Replacements(us)
  {
    assert ([u] + us)[1..] == us && [u][1..] == [];
  }

  lemma {:induction false} GenesisOfNeeding(db: Db, env: TickEnv, vaults: seq<Address>)
    ensures Offered(db.baskets, env, Needing(db, vaults)) == Replacements(GenesisUpdates(db, env, vaults))
    decreases |vaults|
  {
    if vaults == [] {
    } else {
      GenesisOfNeeding(db, env, vaults[1..]);
      if NeedsGenesis(db, vaults[0]) {
        ReplacementsCons(GenesisUpdate(db.baskets, env, vaults[0]), GenesisUpdates(db, env, vaults[1..]));
        assert Needing(db, vaults)[1..] == Needing(db, vaults[1..]);
      }
    }
  }

  function QueueWrites(vaults: set<Address>, ls: seq<ForwardLog>, pairs: seq<(Address, Address)>, from: int,
                       to: int): seq<Write>
  {
    ForwardWrites(ForwardEvents(vaults, ls, pairs, from, to))
  }

  lemma QueueWritesCons(vaults: set<Address>, ls: seq<ForwardLog>, pairs: seq<(Address, Address)>, from: int, to: int)
    requires pairs != []
    ensures var rest := QueueWrites(vaults, ls, pairs[1..], from, to);
            QueueWrites(vaults, ls, pairs, from, to) ==
            if pairs[0].0 in vaults then ForwardWrites(QueueEvents(ls, pairs[0].0, pairs[0].1, from, to)) + rest
              else rest
  {
  }

  /** One process: its repository, the block it backfills from, and the chain it reads. `budget` is
      the number of writes that go through before something fails. */
  class IndexerService {
    const startBlock: nat
    const repo: Repository

    constructor (startBlock: nat, repo: Repository)
      ensures this.startBlock == startBlock && this.repo == repo
    {
      this.startBlock, this.repo := startBlock, repo;
    }

    /** Replaces the constituents an update lists; an update without tokens is skipped. */
    method ApplyUpdates(us: seq<Update>, budget: nat) returns (left: nat, ok: bool)
      modifies repo
      ensures repo.baskets == old(repo.baskets)
      ensures ok <==> budget >= |Replacements(us)|
      ensures left == if ok then budget - |Replacements(us)| else 0
      ensures repo.Snapshot() == CutAfter(old(repo.Snapshot()), Replacements(us), budget)
    {
      left := budget;
      var i := 0;
      while i < |us|
        invariant 0 <= i <= |us|
        invariant repo.baskets == old(repo.baskets)
        invariant |Replacements(us)| - budget == |Replacements(us[i..])| - left
        invariant CutAfter(repo.Snapshot(), Replacements(us[i..]), left)
                  == CutAfter(old(repo.Snapshot()), Replacements(us), budget)
      {
        assert us[i..][1..] == us[i + 1..];
        if us[i].recipe != [] {
          if left == 0 {
            return 0, false;
          }
          CutFirst(repo.Snapshot(), ReplaceConstituents(us[i].vault, us[i].recipe), Replacements(us[i + 1..]), left);
          repo.ReplaceRegistryConstituents(us[i].vault, us[i].recipe);
          left := left - 1;
        }
        i := i + 1;
      }
      ok := true;
    }

    /** Prefers the recipe persisted at deploy to what the vault itself answers; offering nothing
        leaves the vault as it is. */
    method PopulateVault(env: TickEnv, vault: Address, budget: nat) returns (left: nat, ok: bool)
      requires vault in repo.baskets
      modifies repo
      ensures repo.baskets == old(repo.baskets)
      ensures var ws := Replacements([GenesisUpdate(repo.baskets, env, vault)]);
              && (ok <==> budget >= |ws|)
              && left == (if ok then budget - |ws| else 0)
              && repo.Snapshot() == CutAfter(old(repo.Snapshot()), ws, budget)
    {
      var offer := PersistedGenesis(env, repo.baskets[vault].root);
      if offer == [] {
        offer := LiveGenesis(env, vault);
      }
      left, ok := budget, true;
      ReplacementsOne(Update(vault, offer));
      if offer != [] {
        CutOne(repo.Snapshot(), ReplaceConstituents(vault, offer), budget);
        if budget == 0 {
          return 0, false;
        }
        repo.ReplaceRegistryConstituents(vault, offer);
        left := left - 1;
      }
    }

    /** Populates the registry vaults that have no constituents when the loop starts. */
    method PopulateGenesis(env: TickEnv, budget: nat) returns (left: nat, ok: bool)
      modifies repo
      ensures repo.baskets == old(repo.baskets)
      ensures var ws := GenesisWrites(old(repo.Snapshot()), env);
              && (ok <==> budget >= |ws|)
              && left == (if ok then budget - |ws| else 0)
              && repo.Snapshot() == CutAfter(old(repo.Snapshot()), ws, budget)
    {
      GenesisOfNeeding(repo.Snapshot(), env, env.rowOrder);
      var needing := Needing(repo.Snapshot(), env.rowOrder);
      left, ok := PopulateVaults(env, needing, budget);
    }

    method PopulateVaults(env: TickEnv, needing: seq<Address>, budget: nat) returns (left: nat, ok: bool)
      requires forall v :: v in needing ==> v in repo.baskets
      modifies repo
      ensures repo.baskets == old(repo.baskets)
      ensures var ws := Offered(repo.baskets, env, needing);
              && (ok <==> budget >= |ws|)
              && left == (if ok then budget - |ws| else 0)
              && repo.Snapshot() == CutAfter(old(repo.Snapshot()), ws, budget)
    {
      left := budget;
      var i := 0;
      while i < |needing|
        invariant 0 <= i <= |needing|
        invariant repo.baskets == old(repo.baskets)
        invariant var all, rest := Offered(repo.baskets, env, needing), Offered(repo.baskets, env, needing[i..]);
                  && |all| - budget == |rest| - left
                  && CutAfter(repo.Snapshot(), rest, left) == CutAfter(old(repo.Snapshot()), all, budget)
      {
        var vault := needing[i];
        assert needing[i..][1..] == needing[i + 1..] && vault in needing;
        CutConcat(repo.Snapshot(), Replacements([GenesisUpdate(repo.baskets, env, vault)]),
                  Offered(repo.baskets, env, needing[i + 1..]), left);
        left, ok := PopulateVault(env, vault, left);
        if !ok {
          return 0, false;
        }
        i := i + 1;
      }
      ok := true;
    }

    /** Applies the events of every known queue whose vault has a basket row. */
    method ApplyForwardQueues(ls: seq<ForwardLog>, env: TickEnv, from: int, to: int, budget: nat)
      returns (left: nat, ok: bool)
      modifies repo
      ensures var ws := QueueWrites(old(repo.baskets).Keys, Seen(ls, env.cutoffs), env.pairs, from, to);
              && (ok <==> budget >= |ws|)
              && left == (if ok then budget - |ws| else 0)
              && repo.Snapshot() == CutAfter(old(repo.Snapshot()), ws, budget)
    {
      var vaults, pairs := repo.baskets.Keys, env.pairs;
      ghost var seen := Seen(ls, env.cutoffs);
      left := budget;
      var i := 0;
      while i < |pairs|
        invariant 0 <= i <= |pairs|
        invariant var all, rest := QueueWrites(vaults, seen, pairs, from, to),
                                   QueueWrites(vaults, seen, pairs[i..], from, to);
                  && |all| - budget == |rest| - left
                  && CutAfter(repo.Snapshot(), rest, left) == CutAfter(old(repo.Snapshot()), all, budget)
      {
        assert pairs[i..][1..] == pairs[i + 1..];
        var (vault, queue) := pairs[i];
        QueueWritesCons(vaults, seen, pairs[i..], from, to);
        if vault in vaults {
          var es := GetForwardQueueLogs(ls, env.cutoffs, queue, vault, from, to);
          CutConcat(repo.Snapshot(), ForwardWrites(es), QueueWrites(vaults, seen, pairs[i + 1..], from, to), left);
          left, ok := repo.PerformAll(ForwardWrites(es), left);
          if !ok {
            return 0, false;
          }
        }
        i := i + 1;
      }
      ok := true;
    }

    /** One tick, with the writes the plan lists, in its order, up to the first failure. */
    method Tick(chain: Chain, env: TickEnv, budget: nat) returns (completed: bool)
      requires InChainOrder(chain.recipes) && forall l :: l in chain.recipes ==> l.logIndex < 0x1_0000_0000
      modifies repo
      ensures repo.Snapshot() == TickPlan.Tick(startBlock, chain, old(repo.Snapshot()), Attempt(env, budget))
      ensures completed == Completes(startBlock, chain, old(repo.Snapshot()), Attempt(env, budget))
    {
      var range := NextRange(env);
      CutTick(startBlock, chain, repo.Snapshot(), env, budget);
      if range.None? {
        return false;
      }
      completed := Work(chain, env, range.value.0, range.value.1, budget);
    }

    /** The blocks a tick covers; none while the factory is unconfigured or the head has not moved. */
    method NextRange(env: TickEnv) returns (range: Option<(int, int)>)
      ensures range.Some? <==> HasWork(startBlock, repo.checkpoint, env)
      ensures range.Some? ==>
                var from := From(startBlock, repo.Snapshot(), env);
                range.value == (from, To(from, env.head)) && from <= range.value.1 <= env.head
    {
      if !env.ready {
        return None;
      }
      var floor := if startBlock > 0 then startBlock - 1 else env.head - 1;
      var last := if repo.checkpoint.Some? then repo.checkpoint.value else floor;
      if env.head <= last {
        return None;
      }
      var from := last + 1;
      var to := if env.head - from > MAX_RANGE then from + MAX_RANGE else env.head;
      range := Some((from, to));
    }

    /** Scheduled recipes of the registry vaults indexed by now. */
    method IndexRecipes(chain: Chain, from: int, to: int, budget: nat) returns (left: nat, ok: bool)
      requires InChainOrder(chain.recipes) && forall l :: l in chain.recipes ==> l.logIndex < 0x1_0000_0000
      modifies repo
      ensures repo.baskets == old(repo.baskets)
      ensures var ws := RecipeWrites(old(repo.Snapshot()), chain, from, to);
              && (ok <==> budget >= |ws|)
              && left == (if ok then budget - |ws| else 0)
              && repo.Snapshot() == CutAfter(old(repo.Snapshot()), ws, budget)
    {
      var reg := set v | v in repo.baskets && repo.baskets[v].vaultType == Registry;
      assert reg == RegistryVaults(repo.Snapshot());
      var us := GetRegistryRecipeLogs(chain.recipes, reg, from, to);
      left, ok := ApplyUpdates(us, budget);
    }

    /** Scheduled recipes, then genesis recipes. */
    method SetUpRegistry(chain: Chain, env: TickEnv, from: int, to: int, budget: nat) returns (left: nat, ok: bool)
      requires InChainOrder(chain.recipes) && forall l :: l in chain.recipes ==> l.logIndex < 0x1_0000_0000
      modifies repo
      ensures repo.baskets == old(repo.baskets)
      ensures var recipes := RecipeWrites(old(repo.Snapshot()), chain, from, to);
              var ws := recipes + GenesisWrites(ApplyWrites(old(repo.Snapshot()), recipes), env);
              && (ok <==> budget >= |ws|)
              && left == (if ok then budget - |ws| else 0)
              && repo.Snapshot() == CutAfter(old(repo.Snapshot()), ws, budget)
    {
      ghost var recipes := RecipeWrites(repo.Snapshot(), chain, from, to);
      CutConcat(repo.Snapshot(), recipes, GenesisWrites(ApplyWrites(repo.Snapshot(), recipes), env), budget);
      left, ok := IndexRecipes(chain, from, to, budget);
      if !ok {
        return;
      }
      left, ok := PopulateGenesis(env, left);
    }

    /** Baskets, then what the registry vaults hold. */
    method SetUp(chain: Chain, env: TickEnv, from: int, to: int, budget: nat) returns (left: nat, ok: bool)
      requires InChainOrder(chain.recipes) && forall l :: l in chain.recipes ==> l.logIndex < 0x1_0000_0000
      modifies repo
      ensures var ws := SetupWrites(chain, env, old(repo.Snapshot()), from, to);
              && (ok <==> budget >= |ws|)
              && left == (if ok then budget - |ws| else 0)
              && repo.Snapshot() == CutAfter(old(repo.Snapshot()), ws, budget)
      ensures ok ==>
                var baskets := BasketWrites(chain.creations, from, to);
                repo.baskets.Keys == ApplyWrites(old(repo.Snapshot()), baskets).baskets.Keys
    {
      var created := GetCreations(chain.creations, from, to);
      var baskets := seq(|created|, i requires 0 <= i < |created| => UpsertBasket(created[i]));
      assert baskets == BasketWrites(chain.creations, from, to);
      SetupSplits(chain, env, repo.Snapshot(), from, to, budget);
      left, ok := repo.PerformAll(baskets, budget);
      if !ok {
        return;
      }
      left, ok := SetUpRegistry(chain, env, from, to, left);
    }

    /** The writes of a tick over [from, to]. */
    method Work(chain: Chain, env: TickEnv, from: int, to: int, budget: nat) returns (completed: bool)
      requires InChainOrder(chain.recipes) && forall l :: l in chain.recipes ==> l.logIndex < 0x1_0000_0000
      modifies repo
      ensures var ws := Plan(chain, env, old(repo.Snapshot()), from, to);
              && repo.Snapshot() == CutAfter(old(repo.Snapshot()), ws, budget)
              && (completed <==> budget >= |ws|)
    {
      ghost var db := repo.Snapshot();
      ghost var setup := SetupWrites(chain, env, db, from, to);
      ghost var vaults := ApplyWrites(db, BasketWrites(chain.creations, from, to)).baskets.Keys;
      ghost var forward := ForwardWrites(ForwardEvents(vaults, Seen(chain.forward, env.cutoffs), env.pairs, from, to));
      CutThree(db, setup, forward, [SetCheckpoint(to)], budget);
      var left, ok := SetUp(chain, env, from, to, budget);
      if !ok {
        return false;
      }
      left, ok := ApplyForwardQueues(chain.forward, env, from, to, left);
      if !ok {
        return false;
      }
      CutOne(repo.Snapshot(), SetCheckpoint(to), left);
      if left == 0 {
        return false;
      }
      repo.SaveCheckpoint(to);
      completed := true;
    }
  }
}
