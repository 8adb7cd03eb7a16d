/** One indexer tick as the list of atomic writes it performs, the database after a prefix of that
    list, and the block ranges that successive ticks cover. */
module TickPlan {
  import opened Options
  import opened IndexerTypes
  import opened ForwardTickets
  import opened FillCutoffs
  import opened ForwardHistory
  import opened RegistryConstituents

  const MAX_RANGE := 9000

  /** What a tick reads from outside the database: readiness, the head block, the forward queues,
      the order in which `findMany` lists vaults, persisted genesis recipes by root, what the
      post-bootstrap read of a vault answers (no entry: it reverts), and the cutoff each fill finds. */
  datatype TickEnv = TickEnv(ready: bool, head: int, pairs: seq<(Address, Address)>, rowOrder: seq<Address>,
                             persisted: map<string, Recipe>, live: map<Address, Recipe>, cutoffs: map<LogKey, nat>)

  // ---------- block ranges ----------

  function Floor(startBlock: nat, head: int): int {
    if startBlock > 0 then startBlock - 1 else head - 1
  }

  function LastBlock(startBlock: nat, checkpoint: Option<int>, head: int): int {
    if checkpoint.Some? then checkpoint.value else Floor(startBlock, head)
  }

  predicate HasWork(startBlock: nat, checkpoint: Option<int>, env: TickEnv) {
    env.ready && env.head > LastBlock(startBlock, checkpoint, env.head)
  }

  function To(from: int, head: int): int {
    if head - from > MAX_RANGE then from + MAX_RANGE else head
  }

  // ---------- atomic writes ----------

  datatype Write =
    | UpsertBasket(log: CreationLog)
    | ReplaceConstituents(vault: Address, recipe: Recipe)
    | ForwardWrite(event: TicketEvent)
    | SetCheckpoint(block: int)

  /** A registry vault is created without constituents. */
  function CreationRecipe(l: CreationLog): Recipe { if l.vaultType == Registry then [] else l.constituents }

  function ApplyWrite(db: Db, w: Write): Db {
    match w
    case UpsertBasket(l) =>
      db.(baskets := db.baskets[l.vault := BasketRow(l.vaultType, l.root)],
          constituents := UpsertRows(db.constituents, l.vault, CreationRecipe(l)))
    case ReplaceConstituents(v, r) => db.(constituents := Replace(db.constituents, v, r))
    case ForwardWrite(e) => db.(forward := ApplyForward(db.forward, e))
    case SetCheckpoint(b) => db.(checkpoint := Some(b))
  }

  /** Indexing a creation records type and root. Unless the vault is a registry vault, each listed token
      gets its last listed quantity; every other constituent, and all else, stays as it was. */
  lemma BasketUpsertIs(db: Db, l: CreationLog, key: (Address, Address), q: nat)
    ensures var db' := ApplyWrite(db, UpsertBasket(l));
            && db' == db.(baskets := db.baskets[l.vault := BasketRow(l.vaultType, l.root)],
                          constituents := db'.constituents)
            && (l.vaultType != Registry && key.0 == l.vault && Listed(l.constituents, key.1, q) ==>
                  Lookup(db'.constituents, key) == Some(q))
            && (l.vaultType == Registry || key.0 != l.vault || Unlisted(l.constituents, key.1) ==>
                  Lookup(db'.constituents, key) == Lookup(db.constituents, key))
  {
    UpsertRowsLookup(db.constituents, l.vault, CreationRecipe(l), key);
    RecipeMapLists(l.constituents, key.1, q);
  }

  function ApplyWrites(db: Db, ws: seq<Write>): Db
    decreases |ws|
  {
    if ws == [] then db else ApplyWrites(ApplyWrite(db, ws[0]), ws[1..])
  }

  lemma {:induction false} ApplyWritesConcat(db: Db, a: seq<Write>, b: seq<Write>)
    ensures ApplyWrites(db, a + b) == ApplyWrites(ApplyWrites(db, a), b)
    decreases |a|
  {
    if a == [] {
      assert a + b == b;
    } else {
      assert (a + b)[1..] == a[1..] + b;
      ApplyWritesConcat(ApplyWrite(db, a[0]), a[1..], b);
    }
  }

  // ---------- the writes of one tick ----------

  function Created(cs: seq<CreationLog>, ty: VaultType, from: int, to: int): seq<CreationLog> {
    if cs == [] then []
    else if cs[0].vaultType == ty && from <= cs[0].block <= to then [cs[0]] + Created(cs[1..], ty, from, to)
    else Created(cs[1..], ty, from, to)
  }

  /** Creations of a range, type by type, as the five factory events are read. */
  function Creations(cs: seq<CreationLog>, from: int, to: int): seq<CreationLog> {
    Created(cs, Basic, from, to) + Created(cs, Managed, from, to) + Created(cs, Committed, from, to) +
    Created(cs, Rebalance, from, to) + Created(cs, Registry, from, to)
  }

  function BasketWrites(cs: seq<CreationLog>, from: int, to: int): seq<Write> {
    var ls := Creations(cs, from, to);
    seq(|ls|, i requires 0 <= i < |ls| => UpsertBasket(ls[i]))
  }

  function RegistryVaults(db: Db): set<Address> {
    set v | v in db.baskets && db.baskets[v].vaultType == Registry
  }

  /** Replacements for the updates that list at least one token; the others are skipped. */
  function Replacements(us: seq<Update>): seq<Write> {
    if us == [] then []
    else if us[0].recipe != [] then [ReplaceConstituents(us[0].vault, us[0].recipe)] + Replacements(us[1..])
    else Replacements(us[1..])
  }

  predicate NeedsGenesis(db: Db, v: Address) {
    v in RegistryVaults(db) && RowsOf(db.constituents, v) == map[]
  }

  /** The recipe persisted at deploy under the vault's root; nothing if the root is unknown. */
  function PersistedGenesis(env: TickEnv, root: string): Recipe {
    if root != "" && root in env.persisted then env.persisted[root] else []
  }

  function LiveGenesis(env: TickEnv, v: Address): Recipe {
    if v in env.live then env.live[v] else []
  }

  function GenesisOffer(env: TickEnv, root: string, v: Address): Recipe {
    if PersistedGenesis(env, root) != [] then PersistedGenesis(env, root) else LiveGenesis(env, v)
  }

  function GenesisUpdates(db: Db, env: TickEnv, vaults: seq<Address>): seq<Update> {
    if vaults == [] then []
    else if NeedsGenesis(db, vaults[0]) then
      [Update(vaults[0], GenesisOffer(env, db.baskets[vaults[0]].root, vaults[0]))]
      + GenesisUpdates(db, env, vaults[1..])
    else GenesisUpdates(db, env, vaults[1..])
  }

  function QueueLogs(ls: seq<ForwardLog>, q: Address, from: int, to: int): seq<ForwardLog> {
    Select(ls, InQueue(q, from, to))
  }

  function QueueEvents(ls: seq<ForwardLog>, v: Address, q: Address, from: int, to: int): seq<TicketEvent> {
    DecodeAll(v, KindMajor(QueueLogs(ls, q, from, to)))
  }

  /** Events of every known queue whose vault is indexed, queue after queue. */
  function ForwardEvents(vaults: set<Address>, ls: seq<ForwardLog>, pairs: seq<(Address, Address)>,
                         from: int, to: int): seq<TicketEvent>
  {
    if pairs == [] then []
    else if pairs[0].0 in vaults then
      QueueEvents(ls, pairs[0].0, pairs[0].1, from, to) + ForwardEvents(vaults, ls, pairs[1..], from, to)
    else ForwardEvents(vaults, ls, pairs[1..], from, to)
  }

  function ForwardWrites(es: seq<TicketEvent>): seq<Write> {
    seq(|es|, i requires 0 <= i < |es| => ForwardWrite(es[i]))
  }

  function RecipeWrites(db: Db, chain: Chain, from: int, to: int): seq<Write> {
    Replacements(RecipeUpdates(chain.recipes, RegistryVaults(db), from, to))
  }

  function GenesisWrites(db: Db, env: TickEnv): seq<Write> {
    Replacements(GenesisUpdates(db, env, env.rowOrder))
  }

  /** The vaults indexed once the range's creations are written. */
  function VaultsAfter(db: Db, chain: Chain, from: int, to: int): set<Address> {
    db.baskets.Keys + set c | c in chain.creations && from <= c.block <= to :: c.vault
  }

  /** The first writes of a tick: baskets, scheduled recipes, genesis recipes. */
  function SetupWrites(chain: Chain, env: TickEnv, db: Db, from: int, to: int): seq<Write> {
    var baskets := BasketWrites(chain.creations, from, to);
    var db1 := ApplyWrites(db, baskets);
    var recipes := RecipeWrites(db1, chain, from, to);
    baskets + recipes + GenesisWrites(ApplyWrites(db1, recipes), env)
  }

  /** All writes of a tick over [from, to], in order. Later parts depend on what earlier ones wrote. */
  function Plan(chain: Chain, env: TickEnv, db: Db, from: int, to: int): seq<Write> {
    SetupWrites(chain, env, db, from, to)
    + ForwardWrites(ForwardEvents(ApplyWrites(db, BasketWrites(chain.creations, from, to)).baskets.Keys,
                                  Seen(chain.forward, env.cutoffs), env.pairs, from, to))
    + [SetCheckpoint(to)]
  }

  // ---------- ticks, aborted or completed ----------

  /** A tick that gets `writes` atomic writes done before something fails; it completes if that is
      all of them. A failed read between two writes is such an abort, too. */
  datatype Attempt = Attempt(env: TickEnv, writes: nat)

  function From(startBlock: nat, db: Db, env: TickEnv): int {
    LastBlock(startBlock, db.checkpoint, env.head) + 1
  }

  function TickWrites(startBlock: nat, chain: Chain, db: Db, env: TickEnv): seq<Write> {
    if !HasWork(startBlock, db.checkpoint, env) then []
    else
      var from := From(startBlock, db, env);
      Plan(chain, env, db, from, To(from, env.head))
  }

  predicate Completes(startBlock: nat, chain: Chain, db: Db, a: Attempt) {
    HasWork(startBlock, db.checkpoint, a.env) && a.writes >= |TickWrites(startBlock, chain, db, a.env)|
  }

  function Tick(startBlock: nat, chain: Chain, db: Db, a: Attempt): Db {
    var ws := TickWrites(startBlock, chain, db, a.env);
    ApplyWrites(db, if a.writes < |ws| then ws[..a.writes] else ws)
  }

  /** A run: ticks one after another. */
  function Run(startBlock: nat, chain: Chain, db: Db, atts: seq<Attempt>): Db
    decreases |atts|
  {
    if atts == [] then db
    else Tick(startBlock, chain, Run(startBlock, chain, db, atts[..|atts| - 1]), atts[|atts| - 1])
  }

  // ---------- what single write lists do to each table ----------

  function EventsIn(ws: seq<Write>): seq<TicketEvent> {
    if ws == [] then []
    else if ws[0].ForwardWrite? then [ws[0].event] + EventsIn(ws[1..])
    else EventsIn(ws[1..])
  }

  lemma {:induction false} EventsInConcat(a: seq<Write>, b: seq<Write>)
    ensures EventsIn(a + b) == EventsIn(a) + EventsIn(b)
    decreases |a|
  {
    if a == [] {
      assert a + b == b;
    } else {
      assert (a + b)[1..] == a[1..] + b && (a + b)[0] == a[0];
      EventsInConcat(a[1..], b);
      if a[0].ForwardWrite? {
        assert [a[0].event] + (EventsIn(a[1..]) + EventsIn(b)) == [a[0].event] + EventsIn(a[1..]) + EventsIn(b);
      }
    }
  }

  lemma {:induction false} EventsInNone(ws: seq<Write>)
    requires forall w :: w in ws ==> !w.ForwardWrite?
    ensures EventsIn(ws) == []
  {
    if ws == [] {
    } else {
      assert ws[0] in ws;
      EventsInNone(ws[1..]);
    }
  }

  lemma {:induction false} EventsInForward(es: seq<TicketEvent>)
    ensures EventsIn(ForwardWrites(es)) == es
    decreases |es|
  {
    if es == [] {
    } else {
      assert ForwardWrites(es)[1..] == ForwardWrites(es[1..]);
      EventsInForward(es[1..]);
    }
  }

  lemma {:induction false} ForwardTablesOf(db: Db, ws: seq<Write>)
    ensures ApplyWrites(db, ws).forward == ApplyForwardAll(db.forward, EventsIn(ws))
    decreases |ws|
  {
    if ws == [] {
    } else {
      ForwardTablesOf(ApplyWrite(db, ws[0]), ws[1..]);
      if ws[0].ForwardWrite? {
        assert EventsIn(ws)[1..] == EventsIn(ws[1..]);
      } else {
        assert EventsIn(ws) == EventsIn(ws[1..]);
      }
    }
  }

  lemma {:induction false} BasketsOf(db: Db, ws: seq<Write>)
    ensures ApplyWrites(db, ws).baskets.Keys == db.baskets.Keys + set w | w in ws && w.UpsertBasket? :: w.log.vault
    decreases |ws|
  {
    if ws == [] {
    } else {
      BasketsOf(ApplyWrite(db, ws[0]), ws[1..]);
      assert forall w :: w in ws <==> w == ws[0] || w in ws[1..];
    }
  }

  lemma {:induction false} CheckpointOf(db: Db, ws: seq<Write>)
    requires forall w :: w in ws ==> !w.SetCheckpoint?
    ensures ApplyWrites(db, ws).checkpoint == db.checkpoint
    decreases |ws|
  {
    if ws == [] {
    } else {
      assert ws[0] in ws;
      CheckpointOf(ApplyWrite(db, ws[0]), ws[1..]);
    }
  }

  lemma {:induction false} CreatedMembers(cs: seq<CreationLog>, ty: VaultType, from: int, to: int)
    ensures forall c :: c in Created(cs, ty, from, to) <==> c in cs && c.vaultType == ty && from <= c.block <= to
  {
    if cs == [] {
    } else {
      CreatedMembers(cs[1..], ty, from, to);
      assert forall c :: c in cs <==> c == cs[0] || c in cs[1..];
    }
  }

  lemma CreationMembers(cs: seq<CreationLog>, from: int, to: int)
    ensures forall c :: c in Creations(cs, from, to) <==> c in cs && from <= c.block <= to
  {
    CreatedMembers(cs, Basic, from, to);
    CreatedMembers(cs, Managed, from, to);
    CreatedMembers(cs, Committed, from, to);
    CreatedMembers(cs, Rebalance, from, to);
    CreatedMembers(cs, Registry, from, to);
  }

  lemma BasketWriteMembers(cs: seq<CreationLog>, from: int, to: int)
    ensures forall w: Write :: w in BasketWrites(cs, from, to) <==>
              w.UpsertBasket? && w.log in cs && from <= w.log.block <= to
  {
    CreationMembers(cs, from, to);
    var ls := Creations(cs, from, to);
    forall w: Write | w.UpsertBasket? && w.log in cs && from <= w.log.block <= to
      ensures w in BasketWrites(cs, from, to)
    {
      var i :| 0 <= i < |ls| && ls[i] == w.log;
      assert BasketWrites(cs, from, to)[i] == w;
    }
  }

  lemma VaultsAfterBaskets(db: Db, chain: Chain, from: int, to: int)
    ensures ApplyWrites(db, BasketWrites(chain.creations, from, to)).baskets.Keys == VaultsAfter(db, chain, from, to)
  {
    var ws := BasketWrites(chain.creations, from, to);
    BasketsOf(db, ws);
    BasketWriteMembers(chain.creations, from, to);
    forall c | c in chain.creations && from <= c.block <= to ensures c.vault in ApplyWrites(db, ws).baskets.Keys {
      assert UpsertBasket(c) in ws;
    }
  }

  lemma {:induction false} ReplacementsOnly(us: seq<Update>)
    ensures forall w: Write :: w in Replacements(us) <==>
              w.ReplaceConstituents? && w.recipe != [] && Update(w.vault, w.recipe) in us
  {
    if us == [] {
    } else {
      ReplacementsOnly(us[1..]);
      assert forall u :: u in us <==> u == us[0] || u in us[1..];
    }
  }

  lemma SetupShape(chain: Chain, env: TickEnv, db: Db, from: int, to: int)
    ensures forall w :: w in SetupWrites(chain, env, db, from, to) ==>
              (w.UpsertBasket? && w.log in chain.creations && from <= w.log.block <= to) || w.ReplaceConstituents?
  {
    var p1 := BasketWrites(chain.creations, from, to);
    var db1 := ApplyWrites(db, p1);
    var db2 := ApplyWrites(db1, RecipeWrites(db1, chain, from, to));
    BasketWriteMembers(chain.creations, from, to);
    ReplacementsOnly(RecipeUpdates(chain.recipes, RegistryVaults(db1), from, to));
    ReplacementsOnly(GenesisUpdates(db2, env, env.rowOrder));
  }

  /** Of a whole tick, only its forward part writes events, and only its end the checkpoint. */
  ghost predicate Shape(cs: seq<CreationLog>, ws: seq<Write>, es: seq<TicketEvent>, from: int, to: int) {
    && |ws| > 0 && ws[|ws| - 1] == SetCheckpoint(to)
    && (forall w :: w in ws[..|ws| - 1] ==> !w.SetCheckpoint?)
    && (forall w :: w in ws && w.UpsertBasket? ==> w.log in cs && from <= w.log.block <= to)
    && EventsIn(ws) == es
  }

  lemma PlanShape(chain: Chain, env: TickEnv, db: Db, from: int, to: int)
    ensures Shape(chain.creations, Plan(chain, env, db, from, to),
                  ForwardEvents(VaultsAfter(db, chain, from, to), Seen(chain.forward, env.cutoffs), env.pairs,
                                from, to),
                  from, to)
  {
    var es := ForwardEvents(VaultsAfter(db, chain, from, to), Seen(chain.forward, env.cutoffs), env.pairs, from, to);
    SetupShape(chain, env, db, from, to);
    VaultsAfterBaskets(db, chain, from, to);
    PlanParts(chain.creations, SetupWrites(chain, env, db, from, to), es, from, to);
  }

  lemma PlanParts(cs: seq<CreationLog>, setup: seq<Write>, es: seq<TicketEvent>, from: int, to: int)
    requires forall w :: w in setup ==>
               (w.UpsertBasket? && w.log in cs && from <= w.log.block <= to) || w.ReplaceConstituents?
    ensures Shape(cs, setup + ForwardWrites(es) + [SetCheckpoint(to)], es, from, to)
  {
    var ws := setup + ForwardWrites(es) + [SetCheckpoint(to)];
    assert ws[..|ws| - 1] == setup + ForwardWrites(es);
    EventsInConcat(setup + ForwardWrites(es), [SetCheckpoint(to)]);
    EventsInConcat(setup, ForwardWrites(es));
    EventsInNone(setup);
    EventsInNone([SetCheckpoint(to)]);
    EventsInForward(es);
  }

  /** Only the last write of a plan moves the checkpoint. */
  lemma CheckpointOfShape(cs: seq<CreationLog>, db: Db, ws: seq<Write>, es: seq<TicketEvent>, from: int, to: int,
                          n: nat)
    requires Shape(cs, ws, es, from, to)
    ensures n < |ws| ==> ApplyWrites(db, ws[..n]).checkpoint == db.checkpoint
    ensures n >= |ws| ==> ApplyWrites(db, ws).checkpoint == Some(to)
  {
    var k := if n < |ws| - 1 then n else |ws| - 1;
    forall w | w in ws[..k] ensures !w.SetCheckpoint? {
      assert w in ws[..|ws| - 1];
    }
    CheckpointOf(db, ws[..k]);
    if n >= |ws| {
      assert ws == ws[..k] + [ws[k]];
      ApplyWritesConcat(db, ws[..k], [ws[k]]);
      assert [ws[k]][1..] == [];
    }
  }

  /** A tick moves the checkpoint exactly when it completes, and then to the end of its range. */
  lemma TickCheckpoint(startBlock: nat, chain: Chain, db: Db, a: Attempt)
    ensures var from := From(startBlock, db, a.env);
            Tick(startBlock, chain, db, a).checkpoint
            == if Completes(startBlock, chain, db, a) then Some(To(from, a.env.head)) else db.checkpoint
  {
    var ws := TickWrites(startBlock, chain, db, a.env);
    if HasWork(startBlock, db.checkpoint, a.env) {
      var from := From(startBlock, db, a.env);
      PlanShape(chain, a.env, db, from, To(from, a.env.head));
      CheckpointOfShape(chain.creations, db, ws, EventsIn(ws), from, To(from, a.env.head), a.writes);
    } else {
      assert ws == [];
      assert ws[..0] == [];
    }
  }

  /** A tick with work is a prefix of its plan; all of it when the tick completes. */
  lemma TickIsPrefix(startBlock: nat, chain: Chain, db: Db, a: Attempt) returns (n: nat)
    requires HasWork(startBlock, db.checkpoint, a.env)
    ensures var from := From(startBlock, db, a.env);
            var ws := Plan(chain, a.env, db, from, To(from, a.env.head));
            && n <= |ws| && Tick(startBlock, chain, db, a) == ApplyWrites(db, ws[..n])
            && (n == |ws| <==> Completes(startBlock, chain, db, a))
  {
    var ws := TickWrites(startBlock, chain, db, a.env);
    n := if a.writes < |ws| then a.writes else |ws|;
    assert ws[..|ws|] == ws;
  }

  /** A tick without work changes nothing. */
  lemma IdleTick(startBlock: nat, chain: Chain, db: Db, a: Attempt)
    requires !HasWork(startBlock, db.checkpoint, a.env)
    ensures Tick(startBlock, chain, db, a) == db
  {
    assert TickWrites(startBlock, chain, db, a.env) == [];
  }
}
