/** Registry constituents over every run: at each checkpoint they are the newest scheduled recipe, or
    the genesis recipe if none was scheduled, however the blocks fell into ticks. */
module RegistryRuns {
  import opened Options
  import opened IndexerTypes
  import opened RegistryConstituents
  import opened TickPlan
  import opened ForwardReadModel
  import opened ForwardRuns

  // ---------- the last replacement in a list of writes ----------

  function LastReplace(ws: seq<Write>, v: Address): (r: Option<Recipe>)
    ensures r.Some? ==> ReplaceConstituents(v, r.value) in ws
    ensures r.None? ==> forall x :: ReplaceConstituents(v, x) !in ws
  {
    if ws == [] then None
    else
      var r := LastReplace(ws[1..], v);
      assert forall w :: w in ws <==> w == ws[0] || w in ws[1..];
      if r.Some? then r
      else if ws[0].ReplaceConstituents? && ws[0].vault == v then Some(ws[0].recipe) else None
  }

  /** A registry vault's rows are those of the last replacement, if there was one. */
  lemma {:induction false} RowsAfterWrites(db: Db, ws: seq<Write>, v: Address)
    requires forall w :: w in ws && w.UpsertBasket? && w.log.vault == v ==> w.log.vaultType == Registry
    ensures RowsOf(ApplyWrites(db, ws).constituents, v) ==
            if LastReplace(ws, v).Some? then RecipeMap(LastReplace(ws, v).value) else RowsOf(db.constituents, v)
    decreases |ws|
  {
    if ws == [] {
    } else {
      assert ws[0] in ws && forall w :: w in ws[1..] ==> w in ws;
      RowsAfterWrites(ApplyWrite(db, ws[0]), ws[1..], v);
      match ws[0]
      case UpsertBasket(l) => UpsertLeavesOthers(db.constituents, l.vault, CreationRecipe(l), v);
      case ReplaceConstituents(u, r) => ReplaceIsExact(db.constituents, u, r, v);
      case ForwardWrite(_) =>
      case SetCheckpoint(_) =>
    }
  }

  // ---------- one registry vault through one tick ----------

  /** A registry vault created once, after `startBlock`, whose scheduled recipes come later. */
  ghost predicate Vault(startBlock: nat, chain: Chain, v: Address, birth: CreationLog) {
    && birth in chain.creations && birth.vault == v && birth.vaultType == Registry && birth.block >= startBlock
    && (forall c :: c in chain.creations && c.vault == v ==> c == birth)
    && InChainOrder(chain.recipes)
    && (forall l :: l in chain.recipes && l.vault == v ==> birth.block <= l.block)
  }

  /** A log that lists at least one token; the others are skipped. */
  predicate HasRecipe(n: Option<RecipeLog>) { n.Some? && n.value.recipe != [] }

  /** The basket table knows the vault as created, and knows it once its block is committed. */
  ghost predicate BasketOk(db: Db, v: Address, birth: CreationLog, c: int) {
    && (v in db.baskets ==> db.baskets[v] == BasketRow(Registry, birth.root))
    && (birth.block <= c ==> v in db.baskets)
  }

  lemma {:induction false} BasketsKept(db: Db, ws: seq<Write>, v: Address, birth: CreationLog)
    requires v in db.baskets ==> db.baskets[v] == BasketRow(Registry, birth.root)
    requires forall w :: w in ws && w.UpsertBasket? && w.log.vault == v ==> w.log == birth
    requires birth.vaultType == Registry
    ensures var db' := ApplyWrites(db, ws);
            && (v in db'.baskets ==> db'.baskets[v] == BasketRow(Registry, birth.root))
            && db.baskets.Keys <= db'.baskets.Keys
            && (UpsertBasket(birth) in ws && birth.vault == v ==> v in db'.baskets)
    decreases |ws|
  {
    if ws == [] {
    } else {
      assert ws[0] in ws && forall w :: w in ws <==> w == ws[0] || w in ws[1..];
      BasketsKept(ApplyWrite(db, ws[0]), ws[1..], v, birth);
    }
  }

  lemma {:induction false} OnlyReplacementsKeepBaskets(db: Db, us: seq<Update>)
    ensures ApplyWrites(db, Replacements(us)).baskets == db.baskets
    decreases |us|
  {
    if us == [] {
    } else {
      if us[0].recipe != [] {
        var w := ReplaceConstituents(us[0].vault, us[0].recipe);
        assert Replacements(us)[1..] == Replacements(us[1..]);
        OnlyReplacementsKeepBaskets(ApplyWrite(db, w), us[1..]);
      } else {
        OnlyReplacementsKeepBaskets(db, us[1..]);
      }
    }
  }

  lemma {:induction false} GenesisMembers(db: Db, env: TickEnv, vaults: seq<Address>)
    ensures forall u :: u in GenesisUpdates(db, env, vaults) <==>
              u.vault in vaults && NeedsGenesis(db, u.vault) &&
              u.recipe == GenesisOffer(env, db.baskets[u.vault].root, u.vault)
  {
    if vaults == [] {
    } else {
      GenesisMembers(db, env, vaults[1..]);
      assert forall v :: v in vaults <==> v == vaults[0] || v in vaults[1..];
    }
  }

  /** The database once a tick's baskets are written, and once its scheduled recipes are, too. */
  function AfterBaskets(chain: Chain, db: Db, from: int, to: int): Db {
    ApplyWrites(db, BasketWrites(chain.creations, from, to))
  }

  function AfterRecipes(chain: Chain, db: Db, from: int, to: int): Db {
    var db1 := AfterBaskets(chain, db, from, to);
    ApplyWrites(db1, RecipeWrites(db1, chain, from, to))
  }

  /** The vault right after the baskets of the range are written. */
  lemma VaultAfterBaskets(startBlock: nat, chain: Chain, db: Db, v: Address, birth: CreationLog, c: int, to: int)
    requires Vault(startBlock, chain, v, birth) && BasketOk(db, v, birth, c) && c <= to
    ensures var db1 := AfterBaskets(chain, db, c + 1, to);
            BasketOk(db1, v, birth, to) && RowsOf(db1.constituents, v) == RowsOf(db.constituents, v)
  {
    var ws := BasketWrites(chain.creations, c + 1, to);
    BasketWriteMembers(chain.creations, c + 1, to);
    BasketsKept(db, ws, v, birth);
    RowsAfterWrites(db, ws, v);
    if birth.block > c && birth.block <= to {
      assert UpsertBasket(birth) in ws;
    }
  }

  /** The scheduled part of a tick: the newest recipe of the range, if there is one. */
  lemma VaultAfterRecipes(startBlock: nat, chain: Chain, db: Db, v: Address, birth: CreationLog, c: int, to: int)
    requires Vault(startBlock, chain, v, birth) && BasketOk(db, v, birth, c) && c <= to
    ensures var db1 := AfterBaskets(chain, db, c + 1, to);
            var db2 := AfterRecipes(chain, db, c + 1, to);
            var n := NewestIn(chain.recipes, v, c + 1, to);
            && BasketOk(db2, v, birth, to)
            && RowsOf(db2.constituents, v) ==
               (if HasRecipe(n) then RecipeMap(n.value.recipe) else RowsOf(db.constituents, v))
            && (forall r :: ReplaceConstituents(v, r) in RecipeWrites(db1, chain, c + 1, to) <==>
                  HasRecipe(n) && r == n.value.recipe)
  {
    var db1 := AfterBaskets(chain, db, c + 1, to);
    var us := RecipeUpdates(chain.recipes, RegistryVaults(db1), c + 1, to);
    var ws := RecipeWrites(db1, chain, c + 1, to);
    var n := NewestIn(chain.recipes, v, c + 1, to);
    VaultAfterBaskets(startBlock, chain, db, v, birth, c, to);
    RecipeUpdatesExact(chain.recipes, RegistryVaults(db1), c + 1, to);
    ReplacementsOnly(us);
    OnlyReplacementsKeepBaskets(db1, us);
    RowsAfterWrites(db1, ws, v);
    if HasRecipe(n) {
      assert birth.block <= to && v in RegistryVaults(db1);
      assert Update(v, n.value.recipe) in us;
      assert ReplaceConstituents(v, n.value.recipe) in ws;
    }
  }

  /** The genesis part: only for a vault without rows, when the range schedules no recipe. */
  lemma GenesisWriteOf(startBlock: nat, chain: Chain, env: TickEnv, db: Db, v: Address, birth: CreationLog,
                       c: int, to: int, r: Recipe)
    requires Vault(startBlock, chain, v, birth) && BasketOk(db, v, birth, c) && c <= to
    ensures ReplaceConstituents(v, r) in GenesisWrites(AfterRecipes(chain, db, c + 1, to), env) <==>
              && v in env.rowOrder && v in AfterRecipes(chain, db, c + 1, to).baskets
              && !HasRecipe(NewestIn(chain.recipes, v, c + 1, to)) && RowsOf(db.constituents, v) == map[]
              && r == GenesisOffer(env, birth.root, v) && r != []
  {
    var db2 := AfterRecipes(chain, db, c + 1, to);
    VaultAfterRecipes(startBlock, chain, db, v, birth, c, to);
    GenesisMembers(db2, env, env.rowOrder);
    ReplacementsOnly(GenesisUpdates(db2, env, env.rowOrder));
    var n := NewestIn(chain.recipes, v, c + 1, to);
    if HasRecipe(n) {
      NonEmptyRecipe(n.value.recipe);
    }
    assert v in RegistryVaults(db2) <==> v in db2.baskets;
    assert ReplaceConstituents(v, r) in GenesisWrites(db2, env) <==>
           r != [] && Update(v, r) in GenesisUpdates(db2, env, env.rowOrder);
  }

  /** All replacements of a vault's rows that a tick can make. */
  ghost predicate MayReplace(chain: Chain, env: TickEnv, db: Db, v: Address, birth: CreationLog, c: int, to: int,
                             r: Recipe)
  {
    var n := NewestIn(chain.recipes, v, c + 1, to);
    || (HasRecipe(n) && r == n.value.recipe)
    || (!HasRecipe(n) && RowsOf(db.constituents, v) == map[] && r == GenesisOffer(env, birth.root, v) && r != [])
  }

  /** In a plan a vault's rows are replaced by the scheduled part or the genesis part only. */
  lemma PlanReplaces(chain: Chain, env: TickEnv, db: Db, v: Address, c: int, to: int, r: Recipe)
    ensures ReplaceConstituents(v, r) in Plan(chain, env, db, c + 1, to) <==>
              || ReplaceConstituents(v, r) in RecipeWrites(AfterBaskets(chain, db, c + 1, to), chain, c + 1, to)
              || ReplaceConstituents(v, r) in GenesisWrites(AfterRecipes(chain, db, c + 1, to), env)
  {
    BasketWriteMembers(chain.creations, c + 1, to);
  }

  /** A vault without rows, in a range that schedules no recipe, with a genesis recipe on offer. */
  predicate TakesGenesis(chain: Chain, env: TickEnv, db: Db, v: Address, birth: CreationLog, c: int, to: int) {
    && !HasRecipe(NewestIn(chain.recipes, v, c + 1, to)) && RowsOf(db.constituents, v) == map[]
    && birth.block <= to && v in env.rowOrder && GenesisOffer(env, birth.root, v) != []
  }

  lemma PlanReplacement(startBlock: nat, chain: Chain, env: TickEnv, db: Db, v: Address, birth: CreationLog,
                        c: int, to: int, r: Recipe)
    requires Vault(startBlock, chain, v, birth) && BasketOk(db, v, birth, c) && c <= to
    ensures var n, g := NewestIn(chain.recipes, v, c + 1, to), GenesisOffer(env, birth.root, v);
            var written := ReplaceConstituents(v, r) in Plan(chain, env, db, c + 1, to);
            && (written ==> r != [] && MayReplace(chain, env, db, v, birth, c, to, r))
            && (HasRecipe(n) && r == n.value.recipe ==> written)
            && (TakesGenesis(chain, env, db, v, birth, c, to) && r == g ==> written)
  {
    VaultAfterRecipes(startBlock, chain, db, v, birth, c, to);
    GenesisWriteOf(startBlock, chain, env, db, v, birth, c, to, r);
    PlanReplaces(chain, env, db, v, c, to, r);
  }

  // ---------- the invariant ----------

  /** Rows a vault has had: none, a genesis recipe on offer, or a recipe scheduled up to block `c`. */
  ghost predicate Historic(ls: seq<RecipeLog>, v: Address, rows: map<Address, nat>, offers: set<Recipe>, c: int) {
    || rows == map[]
    || (exists g :: g in offers && g != [] && rows == RecipeMap(g))
    || (exists l :: l in ls && InRange(l, v, 0, c) && l.recipe != [] && rows == RecipeMap(l.recipe))
  }

  /** The rows are those of the newest recipe up to block `b`. */
  predicate Current(ls: seq<RecipeLog>, v: Address, rows: map<Address, nat>, b: int) {
    HasRecipe(NewestIn(ls, v, 0, b)) && rows == RecipeMap(NewestIn(ls, v, 0, b).value.recipe)
  }

  /** Rows a vault may have at checkpoint `c` when no attempt has reached beyond `m`: some recipe that
      was the newest in between, or, without a newest recipe at `c`, rows it has had before. */
  ghost predicate Allowed(ls: seq<RecipeLog>, v: Address, rows: map<Address, nat>, offers: set<Recipe>, c: int,
                          m: int)
  {
    || (exists b :: c <= b <= m && Current(ls, v, rows, b))
    || (!HasRecipe(NewestIn(ls, v, 0, c)) && Historic(ls, v, rows, offers, c))
  }

  lemma NewestUpTo(ls: seq<RecipeLog>, v: Address, c: int, to: int)
    requires InChainOrder(ls) && -1 <= c <= to
    ensures NewestIn(ls, v, 0, to) ==
            if NewestIn(ls, v, c + 1, to).Some? then NewestIn(ls, v, c + 1, to) else NewestIn(ls, v, 0, c)
  {
    NewestSplits(ls, v, 0, c, to);
  }

  /** Without a recipe in a range, the newest one is the same all over it. */
  lemma NewestStays(ls: seq<RecipeLog>, v: Address, c: int, b: int, to: int)
    requires InChainOrder(ls) && -1 <= c <= b <= to && NewestIn(ls, v, c + 1, to).None?
    ensures NewestIn(ls, v, 0, b) == NewestIn(ls, v, 0, c)
  {
    NewestUpTo(ls, v, c, b);
  }

  lemma AllowedAfterAbort(chain: Chain, env: TickEnv, db: Db, v: Address, birth: CreationLog, offers: set<Recipe>,
                          c: int, m: int, to: int, r: Recipe)
    requires InChainOrder(chain.recipes) && -1 <= c <= m <= to
    requires Allowed(chain.recipes, v, RowsOf(db.constituents, v), offers, c, m)
    requires MayReplace(chain, env, db, v, birth, c, to, r)
    ensures Allowed(chain.recipes, v, RecipeMap(r), offers + {GenesisOffer(env, birth.root, v)}, c, to)
  {
    var ls := chain.recipes;
    NewestUpTo(ls, v, c, to);
    if HasRecipe(NewestIn(ls, v, c + 1, to)) {
      assert Current(ls, v, RecipeMap(r), to);
    } else {
      if b :| c <= b <= m && Current(ls, v, RowsOf(db.constituents, v), b) {
        NonEmptyRecipe(NewestIn(ls, v, 0, b).value.recipe);
        assert false;
      }
    }
  }

  /** A recipe that was the newest at some block has been scheduled by any later one. */
  lemma CurrentIsHistoric(ls: seq<RecipeLog>, v: Address, rows: map<Address, nat>, offers: set<Recipe>, b: int, to: int)
    requires Current(ls, v, rows, b) && b <= to
    ensures Historic(ls, v, rows, offers, to)
  {
    var l := NewestIn(ls, v, 0, b).value;
    assert l in ls && InRange(l, v, 0, to);
  }

  /** At the end of a completed tick only the newest recipe, or rows from before, are left. */
  lemma AllowedAtCheckpoint(ls: seq<RecipeLog>, v: Address, rows: map<Address, nat>, offers: set<Recipe>,
                            c: int, m: int, to: int)
    requires InChainOrder(ls) && -1 <= c <= m <= to
    requires Allowed(ls, v, rows, offers, c, m) && !HasRecipe(NewestIn(ls, v, c + 1, to))
    ensures Allowed(ls, v, rows, offers, to, to)
  {
    NewestUpTo(ls, v, c, to);
    if b :| c <= b <= m && Current(ls, v, rows, b) {
      if NewestIn(ls, v, c + 1, to).None? {
        NewestStays(ls, v, c, b, to);
        assert Current(ls, v, rows, to);
      } else {
        CurrentIsHistoric(ls, v, rows, offers, b, to);
      }
    } else {
      assert Historic(ls, v, rows, offers, c);
      HistoricStays(ls, v, rows, offers, {}, c, to);
    }
  }

  lemma HistoricStays(ls: seq<RecipeLog>, v: Address, rows: map<Address, nat>, offers: set<Recipe>, more: set<Recipe>,
                      c: int, to: int)
    requires c <= to && Historic(ls, v, rows, offers, c)
    ensures Historic(ls, v, rows, offers + more, to)
  {
    assert offers + {} == offers;
    if g :| g in offers && g != [] && rows == RecipeMap(g) {
      assert g in offers + more;
    } else if l :| l in ls && InRange(l, v, 0, c) && l.recipe != [] && rows == RecipeMap(l.recipe) {
      assert InRange(l, v, 0, to);
    }
  }

  lemma AllowedReach(ls: seq<RecipeLog>, v: Address, rows: map<Address, nat>, offers: set<Recipe>, g: Recipe,
                     c: int, m: int, to: int)
    requires m <= to && Allowed(ls, v, rows, offers, c, m)
    ensures Allowed(ls, v, rows, offers + {g}, c, to)
  {
    if b :| c <= b <= m && Current(ls, v, rows, b) {
      assert c <= b <= to;
    } else {
      HistoricStays(ls, v, rows, offers, {g}, c, c);
    }
  }

  ghost predicate RegistryInv(chain: Chain, db: Db, v: Address, birth: CreationLog, offers: set<Recipe>, c: int,
                              m: int)
  {
    BasketOk(db, v, birth, c) && Allowed(chain.recipes, v, RowsOf(db.constituents, v), offers, c, m)
  }

  ghost predicate ReplacesOk(chain: Chain, env: TickEnv, db: Db, v: Address, birth: CreationLog, c: int, to: int,
                             ws: seq<Write>)
  {
    var n := NewestIn(chain.recipes, v, c + 1, to);
    && (forall r :: ReplaceConstituents(v, r) in ws ==> r != [] && MayReplace(chain, env, db, v, birth, c, to, r))
    && (HasRecipe(n) ==> ReplaceConstituents(v, n.value.recipe) in ws)
    && (TakesGenesis(chain, env, db, v, birth, c, to) ==>
        ReplaceConstituents(v, GenesisOffer(env, birth.root, v)) in ws)
  }

  ghost predicate BasketsOk(v: Address, birth: CreationLog, c: int, to: int, ws: seq<Write>) {
    && (forall w :: w in ws && w.UpsertBasket? && w.log.vault == v ==> w.log == birth)
    && (c < birth.block <= to ==> UpsertBasket(birth) in ws)
  }

  /** All that a vault's rows depend on in the writes of a tick. */
  ghost predicate WritesOk(chain: Chain, env: TickEnv, db: Db, v: Address, birth: CreationLog, c: int, to: int,
                           ws: seq<Write>)
  {
    ReplacesOk(chain, env, db, v, birth, c, to, ws) && BasketsOk(v, birth, c, to, ws)
  }

  lemma PlanReplacesOk(startBlock: nat, chain: Chain, env: TickEnv, db: Db, v: Address, birth: CreationLog,
                       c: int, to: int, ws: seq<Write>)
    requires Vault(startBlock, chain, v, birth) && BasketOk(db, v, birth, c) && c <= to
    requires ws == Plan(chain, env, db, c + 1, to)
    ensures ReplacesOk(chain, env, db, v, birth, c, to, ws)
  {
    var n := NewestIn(chain.recipes, v, c + 1, to);
    forall r | ReplaceConstituents(v, r) in ws ensures r != [] && MayReplace(chain, env, db, v, birth, c, to, r) {
      PlanReplacement(startBlock, chain, env, db, v, birth, c, to, r);
    }
    if HasRecipe(n) {
      PlanReplacement(startBlock, chain, env, db, v, birth, c, to, n.value.recipe);
    }
    PlanReplacement(startBlock, chain, env, db, v, birth, c, to, GenesisOffer(env, birth.root, v));
  }

  lemma PlanBasketsOk(startBlock: nat, chain: Chain, env: TickEnv, db: Db, v: Address, birth: CreationLog,
                      c: int, to: int, ws: seq<Write>)
    requires Vault(startBlock, chain, v, birth) && ws == Plan(chain, env, db, c + 1, to)
    ensures BasketsOk(v, birth, c, to, ws)
  {
    PlanShape(chain, env, db, c + 1, to);
    PlanHasBaskets(chain, env, db, c + 1, to);
  }

  lemma PlanWritesOk(startBlock: nat, chain: Chain, env: TickEnv, db: Db, v: Address, birth: CreationLog, c: int,
                     to: int)
    requires Vault(startBlock, chain, v, birth) && BasketOk(db, v, birth, c) && c <= to
    ensures WritesOk(chain, env, db, v, birth, c, to, Plan(chain, env, db, c + 1, to))
  {
    PlanReplacesOk(startBlock, chain, env, db, v, birth, c, to, Plan(chain, env, db, c + 1, to));
    PlanBasketsOk(startBlock, chain, env, db, v, birth, c, to, Plan(chain, env, db, c + 1, to));
  }

  /** A tick with work, reduced to what matters for a vault's rows. */
  lemma TickWritesOk(startBlock: nat, chain: Chain, db: Db, a: Attempt, v: Address, birth: CreationLog, c: int)
    returns (ws: seq<Write>, n: nat)
    requires startBlock > 0 && Vault(startBlock, chain, v, birth) && BasketOk(db, v, birth, c)
    requires HasWork(startBlock, db.checkpoint, a.env) && c == LastBlock(startBlock, db.checkpoint, 0)
    ensures WritesOk(chain, a.env, db, v, birth, c, To(c + 1, a.env.head), ws)
    ensures n <= |ws| && Tick(startBlock, chain, db, a) == ApplyWrites(db, ws[..n])
    ensures n == |ws| <==> Completes(startBlock, chain, db, a)
  {
    n := TickIsPrefix(startBlock, chain, db, a);
    ws := Plan(chain, a.env, db, c + 1, To(c + 1, a.env.head));
    PlanWritesOk(startBlock, chain, a.env, db, v, birth, c, To(c + 1, a.env.head));
  }

  /** The basket and the rows after the first `n` writes of a tick. */
  lemma VaultAfterPrefix(chain: Chain, env: TickEnv, db: Db, v: Address, birth: CreationLog, c: int, to: int,
                         ws: seq<Write>, n: nat)
    requires birth.vault == v && birth.vaultType == Registry && BasketOk(db, v, birth, c) && c <= to
    requires WritesOk(chain, env, db, v, birth, c, to, ws) && n <= |ws|
    ensures var db', last := ApplyWrites(db, ws[..n]), LastReplace(ws[..n], v);
            && BasketOk(db', v, birth, if n == |ws| then to else c)
            && RowsOf(db'.constituents, v) == (if last.Some? then RecipeMap(last.value) else RowsOf(db.constituents, v))
            && (last.Some? ==> ReplaceConstituents(v, last.value) in ws)
  {
    var pre := ws[..n];
    forall w | w in pre ensures w in ws {}
    BasketsKept(db, pre, v, birth);
    RowsAfterWrites(db, pre, v);
    if n == |ws| {
      assert pre == ws;
    }
  }

  /** The rows after some of a tick's writes are allowed up to where the tick reaches. */
  lemma RowsAfterPrefix(chain: Chain, env: TickEnv, db: Db, v: Address, birth: CreationLog, offers: set<Recipe>,
                        c: int, m: int, to: int, ws: seq<Write>, n: nat)
    requires InChainOrder(chain.recipes) && birth.vault == v && birth.vaultType == Registry
    requires RegistryInv(chain, db, v, birth, offers, c, m) && -1 <= c <= m <= to
    requires WritesOk(chain, env, db, v, birth, c, to, ws) && n <= |ws|
    ensures Allowed(chain.recipes, v, RowsOf(ApplyWrites(db, ws[..n]).constituents, v),
                    offers + {GenesisOffer(env, birth.root, v)}, c, to)
  {
    VaultAfterPrefix(chain, env, db, v, birth, c, to, ws, n);
    var last := LastReplace(ws[..n], v);
    if last.Some? {
      AllowedAfterAbort(chain, env, db, v, birth, offers, c, m, to, last.value);
    } else {
      AllowedReach(chain.recipes, v, RowsOf(db.constituents, v), offers, GenesisOffer(env, birth.root, v), c, m, to);
    }
  }

  /** After all of them they are allowed at the new checkpoint, and there are some if there was a
      recipe to take. */
  lemma RowsAfterAll(chain: Chain, env: TickEnv, db: Db, v: Address, birth: CreationLog, offers: set<Recipe>,
                     c: int, m: int, to: int, ws: seq<Write>)
    requires InChainOrder(chain.recipes) && birth.vault == v && birth.vaultType == Registry
    requires RegistryInv(chain, db, v, birth, offers, c, m) && -1 <= c <= m <= to
    requires WritesOk(chain, env, db, v, birth, c, to, ws)
    ensures var rows, g := RowsOf(ApplyWrites(db, ws).constituents, v), GenesisOffer(env, birth.root, v);
            && Allowed(chain.recipes, v, rows, offers + {g}, to, to)
            && (birth.block <= to && v in env.rowOrder && g != [] ==> rows != map[])
  {
    var rows, g := RowsOf(ApplyWrites(db, ws).constituents, v), GenesisOffer(env, birth.root, v);
    assert ws[..|ws|] == ws;
    VaultAfterPrefix(chain, env, db, v, birth, c, to, ws, |ws|);
    RowsAfterPrefix(chain, env, db, v, birth, offers, c, m, to, ws, |ws|);
    if HasRecipe(NewestIn(chain.recipes, v, c + 1, to)) {
      NewestUpTo(chain.recipes, v, c, to);
      NonEmptyRecipe(NewestIn(chain.recipes, v, c + 1, to).value.recipe);
      assert Current(chain.recipes, v, rows, to);
    } else {
      AllowedAtCheckpoint(chain.recipes, v, rows, offers + {g}, c, to, to);
      var last := LastReplace(ws, v);
      if last.Some? {
        NonEmptyRecipe(last.value);
      }
    }
  }

  // ---------- runs ----------

  /** The genesis recipes the attempts of a run had on offer for a vault. */
  function Offers(atts: seq<Attempt>, birth: CreationLog): set<Recipe> {
    set a | a in atts :: GenesisOffer(a.env, birth.root, birth.vault)
  }

  /** One more tick of a run, whatever it does. */
  lemma RegistryStepFits(startBlock: nat, chain: Chain, db: Db, env: TickEnv, v: Address, birth: CreationLog,
                         offers: set<Recipe>, c: int, m: int, ws: seq<Write>, n: nat, db': Db)
    requires startBlock > 0 && Vault(startBlock, chain, v, birth)
    requires c == LastBlock(startBlock, db.checkpoint, 0)
    requires startBlock - 1 <= c <= m <= c + MAX_RANGE + 1 && (m == c || m <= env.head)
    requires RegistryInv(chain, db, v, birth, offers, c, m)
    requires TickWrote(startBlock, chain, db, env, v, birth, c, ws, n, db')
    ensures RegistryInv(chain, db', v, birth, offers + {GenesisOffer(env, birth.root, v)},
                        LastBlock(startBlock, db'.checkpoint, 0),
                        if HasWork(startBlock, db.checkpoint, env) then To(c + 1, env.head) else m)
  {
    var g := GenesisOffer(env, birth.root, v);
    if !HasWork(startBlock, db.checkpoint, env) {
      AllowedReach(chain.recipes, v, RowsOf(db.constituents, v), offers, g, c, m, m);
    } else {
      var to := To(c + 1, env.head);
      VaultAfterPrefix(chain, env, db, v, birth, c, to, ws, n);
      if n == |ws| {
        assert ws[..n] == ws;
        RowsAfterAll(chain, env, db, v, birth, offers, c, m, to, ws);
      } else {
        RowsAfterPrefix(chain, env, db, v, birth, offers, c, m, to, ws, n);
      }
    }
  }

  /** What a tick did, reduced to what matters for a vault's rows. */
  ghost predicate TickWrote(startBlock: nat, chain: Chain, db: Db, env: TickEnv, v: Address, birth: CreationLog,
                            c: int, ws: seq<Write>, n: nat, db': Db)
  {
    if HasWork(startBlock, db.checkpoint, env) then
      && WritesOk(chain, env, db, v, birth, c, To(c + 1, env.head), ws)
      && n <= |ws| && db' == ApplyWrites(db, ws[..n])
      && db'.checkpoint == if n == |ws| then Some(To(c + 1, env.head)) else db.checkpoint
    else db' == db
  }

  lemma TickWritesAre(startBlock: nat, chain: Chain, db: Db, a: Attempt, v: Address, birth: CreationLog, c: int)
    returns (ws: seq<Write>, n: nat)
    requires startBlock > 0 && Vault(startBlock, chain, v, birth) && BasketOk(db, v, birth, c)
    requires c == LastBlock(startBlock, db.checkpoint, 0)
    ensures TickWrote(startBlock, chain, db, a.env, v, birth, c, ws, n, Tick(startBlock, chain, db, a))
    ensures HasWork(startBlock, db.checkpoint, a.env) ==> (n == |ws| <==> Completes(startBlock, chain, db, a))
  {
    ws, n := [], 0;
    if HasWork(startBlock, db.checkpoint, a.env) {
      ws, n := TickWritesOk(startBlock, chain, db, a, v, birth, c);
      assert TickWrote(startBlock, chain, db, a.env, v, birth, c, ws, n, Tick(startBlock, chain, db, a)) by {
        TickCheckpoint(startBlock, chain, db, a);
        WroteSome(startBlock, chain, db, a.env, v, birth, c, ws, n, Tick(startBlock, chain, db, a));
      }
    } else {
      IdleTick(startBlock, chain, db, a);
    }
  }

  lemma WroteSome(startBlock: nat, chain: Chain, db: Db, env: TickEnv, v: Address, birth: CreationLog,
                  c: int, ws: seq<Write>, n: nat, db': Db)
    requires HasWork(startBlock, db.checkpoint, env)
    requires WritesOk(chain, env, db, v, birth, c, To(c + 1, env.head), ws)
    requires n <= |ws| && db' == ApplyWrites(db, ws[..n])
    requires db'.checkpoint == if n == |ws| then Some(To(c + 1, env.head)) else db.checkpoint
    ensures TickWrote(startBlock, chain, db, env, v, birth, c, ws, n, db')
  {
  }

  lemma RegistryTick(startBlock: nat, chain: Chain, db: Db, a: Attempt, v: Address, birth: CreationLog,
                     offers: set<Recipe>, c: int, m: int)
    requires startBlock > 0 && Vault(startBlock, chain, v, birth)
    requires c == LastBlock(startBlock, db.checkpoint, 0)
    requires startBlock - 1 <= c <= m <= c + MAX_RANGE + 1 && (m == c || m <= a.env.head)
    requires RegistryInv(chain, db, v, birth, offers, c, m)
    ensures var db' := Tick(startBlock, chain, db, a);
            RegistryInv(chain, db', v, birth, offers + {GenesisOffer(a.env, birth.root, v)},
                        LastBlock(startBlock, db'.checkpoint, 0),
                        if HasWork(startBlock, db.checkpoint, a.env) then To(From(startBlock, db, a.env), a.env.head)
                        else m)
  {
    var ws, n := TickWritesAre(startBlock, chain, db, a, v, birth, c);
    RegistryStepFits(startBlock, chain, db, a.env, v, birth, offers, c, m, ws, n, Tick(startBlock, chain, db, a));
  }

  lemma OffersStep(atts: seq<Attempt>, birth: CreationLog)
    requires atts != []
    ensures Offers(atts, birth) ==
            Offers(atts[..|atts| - 1], birth) + {GenesisOffer(atts[|atts| - 1].env, birth.root, birth.vault)}
  {
    var init, a := atts[..|atts| - 1], atts[|atts| - 1];
    assert forall x :: x in atts <==> x == a || x in init;
  }

  /** Every run keeps a registry vault's rows among the allowed ones. */
  lemma {:induction false} RegistryRunFits(startBlock: nat, chain: Chain, atts: seq<Attempt>, v: Address,
                                           birth: CreationLog)
    requires startBlock > 0 && GrowingHead(atts) && Vault(startBlock, chain, v, birth)
    ensures RegistryInv(chain, Run(startBlock, chain, EMPTY_DB, atts), v, birth, Offers(atts, birth),
                        CommittedBlock(startBlock, chain, atts), Frontier(startBlock, chain, atts))
    decreases |atts|
  {
    if atts == [] {
      assert RowsOf(EMPTY_DB.constituents, v) == map[];
    } else {
      var init, a := atts[..|atts| - 1], atts[|atts| - 1];
      RegistryRunFits(startBlock, chain, init, v, birth);
      FrontierBounds(startBlock, chain, init);
      OffersStep(atts, birth);
      RegistryTick(startBlock, chain, Run(startBlock, chain, EMPTY_DB, init), a, v, birth, Offers(init, birth),
                   CommittedBlock(startBlock, chain, init), Frontier(startBlock, chain, init));
    }
  }

  /** The last tick completed, so no attempt has reached beyond the checkpoint. */
  lemma CompletedRun(startBlock: nat, chain: Chain, atts: seq<Attempt>)
    requires startBlock > 0
    requires atts != [] &&
             Completes(startBlock, chain, Run(startBlock, chain, EMPTY_DB, atts[..|atts| - 1]), atts[|atts| - 1])
    ensures Run(startBlock, chain, EMPTY_DB, atts).checkpoint == Some(CommittedBlock(startBlock, chain, atts))
    ensures Frontier(startBlock, chain, atts) == CommittedBlock(startBlock, chain, atts)
  {
    TickCheckpoint(startBlock, chain, Run(startBlock, chain, EMPTY_DB, atts[..|atts| - 1]), atts[|atts| - 1]);
  }

  lemma WritesPopulate(startBlock: nat, chain: Chain, db: Db, env: TickEnv, v: Address, birth: CreationLog,
                       offers: set<Recipe>, c: int, m: int, ws: seq<Write>, db': Db)
    requires startBlock > 0 && Vault(startBlock, chain, v, birth) && HasWork(startBlock, db.checkpoint, env)
    requires c == LastBlock(startBlock, db.checkpoint, 0)
    requires startBlock - 1 <= c <= m <= c + MAX_RANGE + 1 && (m == c || m <= env.head)
    requires RegistryInv(chain, db, v, birth, offers, c, m)
    requires TickWrote(startBlock, chain, db, env, v, birth, c, ws, |ws|, db')
    requires birth.block <= LastBlock(startBlock, db'.checkpoint, 0)
    requires v in env.rowOrder && GenesisOffer(env, birth.root, v) != []
    ensures RowsOf(db'.constituents, v) != map[]
  {
    assert ws[..|ws|] == ws;
    RowsAfterAll(chain, env, db, v, birth, offers, c, m, To(c + 1, env.head), ws);
  }

  lemma TickPopulates(startBlock: nat, chain: Chain, db: Db, a: Attempt, v: Address, birth: CreationLog,
                      offers: set<Recipe>, c: int, m: int, db': Db)
    requires startBlock > 0 && Vault(startBlock, chain, v, birth)
    requires Completes(startBlock, chain, db, a) && db' == Tick(startBlock, chain, db, a)
    requires c == LastBlock(startBlock, db.checkpoint, 0)
    requires startBlock - 1 <= c <= m <= c + MAX_RANGE + 1 && (m == c || m <= a.env.head)
    requires RegistryInv(chain, db, v, birth, offers, c, m)
    requires birth.block <= LastBlock(startBlock, db'.checkpoint, 0)
    requires v in a.env.rowOrder && GenesisOffer(a.env, birth.root, v) != []
    ensures RowsOf(db'.constituents, v) != map[]
  {
    var ws, n := TickWritesAre(startBlock, chain, db, a, v, birth, c);
    WritesPopulate(startBlock, chain, db, a.env, v, birth, offers, c, m, ws, db');
  }

  /** What a run leaves for the next tick to start from. */
  lemma RunReady(startBlock: nat, chain: Chain, atts: seq<Attempt>, v: Address, birth: CreationLog, db: Db)
    returns (offers: set<Recipe>, c: int, m: int)
    requires startBlock > 0 && GrowingHead(atts) && Vault(startBlock, chain, v, birth)
    requires db == Run(startBlock, chain, EMPTY_DB, atts)
    ensures c == LastBlock(startBlock, db.checkpoint, 0) && startBlock - 1 <= c <= m <= c + MAX_RANGE + 1
    ensures m == c || (atts != [] && m <= atts[|atts| - 1].env.head)
    ensures RegistryInv(chain, db, v, birth, offers, c, m)
  {
    offers, c, m := Offers(atts, birth), CommittedBlock(startBlock, chain, atts), Frontier(startBlock, chain, atts);
    RegistryRunFits(startBlock, chain, atts, v, birth);
    FrontierBounds(startBlock, chain, atts);
  }

  /** A completed tick populates a created vault that still has no rows; `before` and `after` are what
      the run leaves without and with that tick. */
  lemma CompletedTickPopulates(startBlock: nat, chain: Chain, init: seq<Attempt>, a: Attempt, v: Address,
                               birth: CreationLog, before: Db, after: Db)
    requires startBlock > 0 && GrowingHead(init) && Vault(startBlock, chain, v, birth)
    requires init == [] || init[|init| - 1].env.head <= a.env.head
    requires before == Run(startBlock, chain, EMPTY_DB, init) && after == Tick(startBlock, chain, before, a)
    requires Completes(startBlock, chain, before, a)
    requires birth.block <= LastBlock(startBlock, after.checkpoint, 0)
    requires v in a.env.rowOrder && GenesisOffer(a.env, birth.root, v) != []
    ensures RowsOf(after.constituents, v) != map[]
  {
    var offers, c, m := RunReady(startBlock, chain, init, v, birth, before);
    TickPopulates(startBlock, chain, before, a, v, birth, offers, c, m, after);
  }

  lemma AllowedIsExact(ls: seq<RecipeLog>, v: Address, rows: map<Address, nat>, offers: set<Recipe>, c: int)
    requires Allowed(ls, v, rows, offers, c, c)
    ensures if HasRecipe(NewestIn(ls, v, 0, c)) then rows == RecipeMap(NewestIn(ls, v, 0, c).value.recipe)
            else Historic(ls, v, rows, offers, c)
  {
    if b :| c <= b <= c && Current(ls, v, rows, b) {
      assert b == c;
    }
  }

  /** After any run whose last tick completes, with checkpoint c: if the newest recipe scheduled up to c
      lists a token, a registry vault's constituents are exactly that recipe, dropped tokens pruned. If
      none was scheduled, or the newest is empty, they are nothing yet, a genesis recipe that some tick
      had on offer, or, in the second case only, a recipe scheduled earlier. */
  lemma {:induction false} RegistryFollowsSchedule(startBlock: nat, chain: Chain, atts: seq<Attempt>, v: Address,
                                                   birth: CreationLog)
    requires startBlock > 0 && GrowingHead(atts) && Vault(startBlock, chain, v, birth)
    requires atts != [] &&
             Completes(startBlock, chain, Run(startBlock, chain, EMPTY_DB, atts[..|atts| - 1]), atts[|atts| - 1])
    ensures var db := Run(startBlock, chain, EMPTY_DB, atts);
            var rows := RowsOf(db.constituents, v);
            db.checkpoint.Some? &&
            var c := db.checkpoint.value;
            var newest := NewestIn(chain.recipes, v, 0, c);
            && (if HasRecipe(newest) then rows == RecipeMap(newest.value.recipe)
                else Historic(chain.recipes, v, rows, Offers(atts, birth), c))
            && (newest.None? ==> forall l :: l in chain.recipes ==> !InRange(l, v, 0, c))
  {
    RegistryRunFits(startBlock, chain, atts, v, birth);
    CompletedRun(startBlock, chain, atts);
    var c := CommittedBlock(startBlock, chain, atts);
    AllowedIsExact(chain.recipes, v, RowsOf(Run(startBlock, chain, EMPTY_DB, atts).constituents, v),
                   Offers(atts, birth), c);
  }

  /** What the scheduled-recipe phase of one tick leaves, empty recipes included. */
  lemma {:induction false} RangeLeavesOutcome(db: Db, chain: Chain, from: int, to: int, v: Address)
    requires v in RegistryVaults(db)
    ensures RowsOf(ApplyWrites(db, RecipeWrites(db, chain, from, to)).constituents, v) ==
            RangeOutcome(RowsOf(db.constituents, v), chain.recipes, v, from, to)
  {
    var us := RecipeUpdates(chain.recipes, RegistryVaults(db), from, to);
    var ws := RecipeWrites(db, chain, from, to);
    ReplacementsOnly(us);
    RecipeUpdatesExact(chain.recipes, RegistryVaults(db), from, to);
    RowsAfterWrites(db, ws, v);
    var newest := NewestIn(chain.recipes, v, from, to);
    if newest.Some? && newest.value.recipe != [] {
      assert ReplaceConstituents(v, newest.value.recipe) in ws;
      assert Update(v, LastReplace(ws, v).value) in us;
    }
  }

  /** A vault with one genesis recipe on offer in every tick: persisted at deploy under the root that the
      vault answered when it was indexed. */
  ghost predicate FixedGenesis(atts: seq<Attempt>, birth: CreationLog, g: Recipe) {
    && g != []
    && forall a :: a in atts ==> GenesisOffer(a.env, birth.root, birth.vault) == g && birth.vault in a.env.rowOrder
  }

  /** The chain alone decides a vault's constituents at block `c`: its newest recipe lists a token, or
      it has scheduled nothing and every tick offers the same genesis recipe. */
  ghost predicate Decided(chain: Chain, atts: seq<Attempt>, v: Address, birth: CreationLog, g: Recipe, c: int) {
    var newest := NewestIn(chain.recipes, v, 0, c);
    HasRecipe(newest) || (newest.None? && FixedGenesis(atts, birth, g) && birth.block <= c)
  }

  /** Then two runs that split the blocks differently, crash differently and retry differently agree. */
  lemma {:induction false} ConstituentsIndependentOfSplit(startBlock: nat, chain: Chain, one: seq<Attempt>,
                                                          two: seq<Attempt>, v: Address, birth: CreationLog, g: Recipe)
    requires startBlock > 0 && Vault(startBlock, chain, v, birth) && GrowingHead(one) && GrowingHead(two)
    requires one != [] &&
             Completes(startBlock, chain, Run(startBlock, chain, EMPTY_DB, one[..|one| - 1]), one[|one| - 1])
    requires two != [] &&
             Completes(startBlock, chain, Run(startBlock, chain, EMPTY_DB, two[..|two| - 1]), two[|two| - 1])
    requires Run(startBlock, chain, EMPTY_DB, one).checkpoint == Run(startBlock, chain, EMPTY_DB, two).checkpoint
    requires Decided(chain, one, v, birth, g, CommittedBlock(startBlock, chain, one))
    requires Decided(chain, two, v, birth, g, CommittedBlock(startBlock, chain, two))
    ensures RowsOf(Run(startBlock, chain, EMPTY_DB, one).constituents, v) ==
            RowsOf(Run(startBlock, chain, EMPTY_DB, two).constituents, v)
  {
    ExactConstituents(startBlock, chain, one, v, birth, g);
    ExactConstituents(startBlock, chain, two, v, birth, g);
  }

  /** The constituents at a checkpoint: the newest scheduled recipe, else the genesis recipe. */
  lemma {:induction false} ExactConstituents(startBlock: nat, chain: Chain, atts: seq<Attempt>, v: Address,
                                             birth: CreationLog, g: Recipe)
    requires startBlock > 0 && GrowingHead(atts) && Vault(startBlock, chain, v, birth)
    requires atts != [] &&
             Completes(startBlock, chain, Run(startBlock, chain, EMPTY_DB, atts[..|atts| - 1]), atts[|atts| - 1])
    requires Decided(chain, atts, v, birth, g, CommittedBlock(startBlock, chain, atts))
    ensures var db := Run(startBlock, chain, EMPTY_DB, atts);
            && db.checkpoint.Some?
            && var newest := NewestIn(chain.recipes, v, 0, db.checkpoint.value);
               RowsOf(db.constituents, v) == RecipeMap(if newest.Some? then newest.value.recipe else g)
  {
    RegistryFollowsSchedule(startBlock, chain, atts, v, birth);
    CompletedRun(startBlock, chain, atts);
    var c := CommittedBlock(startBlock, chain, atts);
    var before, after := Run(startBlock, chain, EMPTY_DB, atts[..|atts| - 1]), Run(startBlock, chain, EMPTY_DB, atts);
    if NewestIn(chain.recipes, v, 0, c).None? {
      LastPopulates(startBlock, chain, atts, atts[..|atts| - 1], atts[|atts| - 1], v, birth, g, before, after);
    }
    ExactRows(chain, v, RowsOf(after.constituents, v), atts, birth, g, c);
  }

  lemma LastPopulates(startBlock: nat, chain: Chain, atts: seq<Attempt>, init: seq<Attempt>, a: Attempt, v: Address,
                      birth: CreationLog, g: Recipe, before: Db, after: Db)
    requires startBlock > 0 && GrowingHead(atts) && Vault(startBlock, chain, v, birth) && FixedGenesis(atts, birth, g)
    requires atts != [] && init == atts[..|atts| - 1] && a == atts[|atts| - 1]
    requires before == Run(startBlock, chain, EMPTY_DB, init) && after == Tick(startBlock, chain, before, a)
    requires Completes(startBlock, chain, before, a)
    requires birth.block <= LastBlock(startBlock, after.checkpoint, 0)
    ensures RowsOf(after.constituents, v) != map[]
  {
    LastOf(atts, init, a, birth, g);
    CompletedTickPopulates(startBlock, chain, init, a, v, birth, before, after);
  }

  lemma LastOf(atts: seq<Attempt>, init: seq<Attempt>, a: Attempt, birth: CreationLog, g: Recipe)
    requires GrowingHead(atts) && FixedGenesis(atts, birth, g)
    requires atts != [] && init == atts[..|atts| - 1] && a == atts[|atts| - 1]
    ensures GrowingHead(init) && (init == [] || init[|init| - 1].env.head <= a.env.head)
    ensures birth.vault in a.env.rowOrder && GenesisOffer(a.env, birth.root, birth.vault) == g
  {
    assert a in atts;
  }

  lemma ExactRows(chain: Chain, v: Address, rows: map<Address, nat>, atts: seq<Attempt>, birth: CreationLog, g: Recipe,
                  c: int)
    requires Decided(chain, atts, v, birth, g, c)
    requires var newest := NewestIn(chain.recipes, v, 0, c);
             && (if HasRecipe(newest) then rows == RecipeMap(newest.value.recipe)
                 else Historic(chain.recipes, v, rows, Offers(atts, birth), c))
             && (newest.None? ==> rows != map[])
    ensures var newest := NewestIn(chain.recipes, v, 0, c);
            rows == RecipeMap(if newest.Some? then newest.value.recipe else g)
  {
    if NewestIn(chain.recipes, v, 0, c).None? {
      OnlyGenesis(chain.recipes, v, rows, atts, birth, g, c);
    }
  }

  lemma OnlyGenesis(ls: seq<RecipeLog>, v: Address, rows: map<Address, nat>, atts: seq<Attempt>, birth: CreationLog,
                    g: Recipe, c: int)
    requires NewestIn(ls, v, 0, c).None? && FixedGenesis(atts, birth, g)
    requires Historic(ls, v, rows, Offers(atts, birth), c) && rows != map[]
    ensures rows == RecipeMap(g)
  {
  }
}
