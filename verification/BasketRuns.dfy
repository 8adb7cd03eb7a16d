/** Vaults that are not registry vaults, over every run: from their creation on they hold what their
    creation log lists. */
module BasketRuns {
  import opened IndexerTypes
  import opened Options
  import opened RegistryConstituents
  import opened TickPlan

  /** A vault created once, after `startBlock`, and not as a registry vault. */
  predicate CreatedOnce(startBlock: nat, chain: Chain, birth: CreationLog) {
    && birth in chain.creations && birth.vaultType != Registry && birth.block >= startBlock
    && forall c :: c in chain.creations && c.vault == birth.vault ==> c == birth
  }

  /** Not indexed yet, or indexed as created. */
  predicate AsCreated(db: Db, birth: CreationLog) {
    if birth.vault in db.baskets then
      && db.baskets[birth.vault] == BasketRow(birth.vaultType, birth.root)
      && RowsOf(db.constituents, birth.vault) == RecipeMap(birth.constituents)
    else RowsOf(db.constituents, birth.vault) == map[]
  }

  /** A write that indexes the vault as created, or leaves it alone. */
  predicate Respects(w: Write, birth: CreationLog) {
    && (w.UpsertBasket? && w.log.vault == birth.vault ==> w.log == birth)
    && (w.ReplaceConstituents? ==> w.vault != birth.vault)
  }

  predicate AllRespect(ws: seq<Write>, birth: CreationLog) { forall w :: w in ws ==> Respects(w, birth) }

  lemma UpsertedRows(m: Rows, v: Address, r: Recipe)
    requires RowsOf(m, v) == map[] || RowsOf(m, v) == RecipeMap(r)
    ensures RowsOf(UpsertRows(m, v, r), v) == RecipeMap(r)
  {
    forall t ensures Lookup(RowsOf(UpsertRows(m, v, r), v), t) == Lookup(RecipeMap(r), t) {
      RowsOfLookup(UpsertRows(m, v, r), v, t);
      UpsertRowsLookup(m, v, r, (v, t));
      RowsOfLookup(m, v, t);
    }
    SameMap(RowsOf(UpsertRows(m, v, r), v), RecipeMap(r));
  }

  lemma WriteKeeps(db: Db, w: Write, birth: CreationLog)
    requires birth.vaultType != Registry && AsCreated(db, birth) && Respects(w, birth)
    ensures AsCreated(ApplyWrite(db, w), birth)
  {
    match w
    case UpsertBasket(l) =>
      if l == birth {
        UpsertedRows(db.constituents, l.vault, l.constituents);
      } else {
        UpsertLeavesOthers(db.constituents, l.vault, CreationRecipe(l), birth.vault);
      }
    case ReplaceConstituents(v, r) => ReplaceIsExact(db.constituents, v, r, birth.vault);
    case ForwardWrite(_) =>
    case SetCheckpoint(_) =>
  }

  lemma {:induction false} WritesKeep(db: Db, ws: seq<Write>, birth: CreationLog)
    requires birth.vaultType != Registry && AsCreated(db, birth)
    requires AllRespect(ws, birth)
    ensures AsCreated(ApplyWrites(db, ws), birth)
    decreases |ws|
  {
    if ws == [] {
    } else {
      assert ws[0] in ws && forall w :: w in ws[1..] ==> w in ws;
      WriteKeeps(db, ws[0], birth);
      WritesKeep(ApplyWrite(db, ws[0]), ws[1..], birth);
    }
  }

  // ---------- one tick ----------

  lemma {:induction false} ReplacedAreRegistry(db: Db, us: seq<Update>, birth: CreationLog)
    requires birth.vault !in RegistryVaults(db)
    requires forall u :: u in us ==> u.vault in RegistryVaults(db)
    ensures AllRespect(Replacements(us), birth)
    ensures ApplyWrites(db, Replacements(us)).baskets == db.baskets
  {
    ReplacementsOnly(us);
    forall w | w in Replacements(us) ensures Respects(w, birth) {
      assert Update(w.vault, w.recipe) in us;
    }
    ReplacementsKeepBaskets(db, Replacements(us));
  }

  lemma {:induction false} ReplacementsKeepBaskets(db: Db, ws: seq<Write>)
    requires forall w :: w in ws ==> w.ReplaceConstituents?
    ensures ApplyWrites(db, ws).baskets == db.baskets
    decreases |ws|
  {
    if ws == [] {
    } else {
      assert ws[0] in ws && forall w :: w in ws[1..] ==> w in ws;
      ReplacementsKeepBaskets(ApplyWrite(db, ws[0]), ws[1..]);
    }
  }

  lemma RecipesRespect(chain: Chain, db: Db, birth: CreationLog, from: int, to: int)
    requires birth.vault !in RegistryVaults(db)
    ensures AllRespect(RecipeWrites(db, chain, from, to), birth)
    ensures ApplyWrites(db, RecipeWrites(db, chain, from, to)).baskets == db.baskets
  {
    RecipeUpdatesExact(chain.recipes, RegistryVaults(db), from, to);
    ReplacedAreRegistry(db, RecipeUpdates(chain.recipes, RegistryVaults(db), from, to), birth);
  }

  lemma GenesisRespects(db: Db, env: TickEnv, birth: CreationLog)
    requires birth.vault !in RegistryVaults(db)
    ensures AllRespect(GenesisWrites(db, env), birth)
  {
    GenesisOfRegistry(db, env, env.rowOrder);
    ReplacedAreRegistry(db, GenesisUpdates(db, env, env.rowOrder), birth);
  }

  lemma {:induction false} GenesisOfRegistry(db: Db, env: TickEnv, vaults: seq<Address>)
    ensures forall u :: u in GenesisUpdates(db, env, vaults) ==> u.vault in RegistryVaults(db)
  {
    if vaults == [] {
    } else {
      GenesisOfRegistry(db, env, vaults[1..]);
    }
  }

  lemma BasketsRespect(cs: seq<CreationLog>, from: int, to: int, birth: CreationLog)
    requires forall c :: c in cs && c.vault == birth.vault ==> c == birth
    ensures AllRespect(BasketWrites(cs, from, to), birth)
  {
    BasketWriteMembers(cs, from, to);
  }

  /** No write of a plan touches a created vault but its own creation. */
  lemma PlanRespects(startBlock: nat, chain: Chain, env: TickEnv, db: Db, birth: CreationLog, from: int, to: int)
    requires CreatedOnce(startBlock, chain, birth) && AsCreated(db, birth)
    ensures AllRespect(Plan(chain, env, db, from, to), birth)
  {
    var baskets := BasketWrites(chain.creations, from, to);
    var db1 := ApplyWrites(db, baskets);
    BasketsRespect(chain.creations, from, to, birth);
    WritesKeep(db, baskets, birth);
    RecipesRespect(chain, db1, birth, from, to);
    GenesisRespects(ApplyWrites(db1, RecipeWrites(db1, chain, from, to)), env, birth);
    assert AllRespect(SetupWrites(chain, env, db, from, to), birth);
  }

  lemma Indexed(db: Db, ws: seq<Write>, birth: CreationLog)
    requires birth.vault in db.baskets || UpsertBasket(birth) in ws
    ensures birth.vault in ApplyWrites(db, ws).baskets
  {
    BasketsOf(db, ws);
    if UpsertBasket(birth) in ws {
      assert UpsertBasket(birth).log.vault == birth.vault;
    }
  }

  /** After some of a plan's writes, and after all of them. */
  lemma PlanKeeps(startBlock: nat, chain: Chain, env: TickEnv, db: Db, birth: CreationLog, from: int, to: int,
                  ws: seq<Write>, n: nat)
    requires CreatedOnce(startBlock, chain, birth) && AsCreated(db, birth)
    requires ws == Plan(chain, env, db, from, to) && n <= |ws|
    ensures var db' := ApplyWrites(db, ws[..n]);
            && AsCreated(db', birth)
            && (birth.vault in db.baskets || (n == |ws| && from <= birth.block <= to) ==> birth.vault in db'.baskets)
  {
    PlanRespects(startBlock, chain, env, db, birth, from, to);
    forall w | w in ws[..n] ensures Respects(w, birth) {
      assert w in ws;
    }
    WritesKeep(db, ws[..n], birth);
    if n == |ws| && from <= birth.block <= to {
      BasketWriteMembers(chain.creations, from, to);
      assert UpsertBasket(birth) in BasketWrites(chain.creations, from, to);
      assert ws[..n] == ws;
      Indexed(db, ws, birth);
    } else if birth.vault in db.baskets {
      Indexed(db, ws[..n], birth);
    }
  }

  /** Indexed as created once the creation's block is committed, and never otherwise than as created. */
  predicate Holds(startBlock: nat, db: Db, birth: CreationLog) {
    && AsCreated(db, birth)
    && (birth.block <= LastBlock(startBlock, db.checkpoint, 0) ==> birth.vault in db.baskets)
  }

  lemma TickHolds(startBlock: nat, chain: Chain, db: Db, a: Attempt, birth: CreationLog)
    requires startBlock > 0 && CreatedOnce(startBlock, chain, birth) && Holds(startBlock, db, birth)
    ensures Holds(startBlock, Tick(startBlock, chain, db, a), birth)
  {
    if HasWork(startBlock, db.checkpoint, a.env) {
      var n := TickIsPrefix(startBlock, chain, db, a);
      var from := From(startBlock, db, a.env);
      var to := To(from, a.env.head);
      TickCheckpoint(startBlock, chain, db, a);
      PlanKeeps(startBlock, chain, a.env, db, birth, from, to, Plan(chain, a.env, db, from, to), n);
    } else {
      IdleTick(startBlock, chain, db, a);
    }
  }

  lemma {:induction false} RunHolds(startBlock: nat, chain: Chain, atts: seq<Attempt>, birth: CreationLog)
    requires startBlock > 0 && CreatedOnce(startBlock, chain, birth)
    ensures Holds(startBlock, Run(startBlock, chain, EMPTY_DB, atts), birth)
    decreases |atts|
  {
    if atts == [] {
      assert RowsOf(EMPTY_DB.constituents, birth.vault) == map[];
    } else {
      var init := atts[..|atts| - 1];
      RunHolds(startBlock, chain, init, birth);
      TickHolds(startBlock, chain, Run(startBlock, chain, EMPTY_DB, init), atts[|atts| - 1], birth);
    }
  }

  /** Over every run, crashed ticks included: once the checkpoint has passed its creation, a vault is
      indexed with the created type and root and holds exactly the tokens its creation lists, each with
      the last quantity listed. Before that it is indexed so, or has neither basket nor constituents. */
  lemma CreatedVaultsHold(startBlock: nat, chain: Chain, atts: seq<Attempt>, birth: CreationLog, t: Address, q: nat)
    requires startBlock > 0 && CreatedOnce(startBlock, chain, birth)
    ensures var db, v := Run(startBlock, chain, EMPTY_DB, atts), birth.vault;
            && (db.checkpoint.Some? && birth.block <= db.checkpoint.value ==> v in db.baskets)
            && (v in db.baskets ==>
                  && db.baskets[v].vaultType == birth.vaultType && db.baskets[v].root == birth.root
                  && (Lookup(db.constituents, (v, t)) == Some(q) <==> Listed(birth.constituents, t, q)))
            && (v !in db.baskets ==> (v, t) !in db.constituents)
  {
    RunHolds(startBlock, chain, atts, birth);
    RowsOfLookup(Run(startBlock, chain, EMPTY_DB, atts).constituents, birth.vault, t);
    RecipeMapLists(birth.constituents, t, q);
  }
}
