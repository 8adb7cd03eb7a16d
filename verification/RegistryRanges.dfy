/** Registry constituents over runs of completed ticks, exactly: how empty recipes and changing genesis
    offers decide them, range by range. */
module RegistryRanges {
  import opened ForwardRuns
  import opened IndexerTypes
  import opened Options
  import opened RegistryConstituents
  import opened RegistryRuns
  import opened TickPlan

  /** A completed tick as a registry vault sees it: the blocks, and the genesis recipe it would take. */
  datatype Stage = Stage(from: int, to: int, offer: Recipe)

  /** Rows are populated once: genesis never replaces any. */
  function Populated(rows: map<Address, nat>, offer: Recipe): map<Address, nat> {
    if rows == map[] && offer != [] then RecipeMap(offer) else rows
  }

  /** What the stages leave, from no rows. */
  function Stored(ls: seq<RecipeLog>, v: Address, ts: seq<Stage>): map<Address, nat> {
    if ts == [] then map[]
    else
      var t := ts[|ts| - 1];
      Populated(RangeOutcome(Stored(ls, v, ts[..|ts| - 1]), ls, v, t.from, t.to), t.offer)
  }

  /** What they leave of given rows if nothing is scheduled: the rows, else the first offer. */
  function Kept(rows: map<Address, nat>, ts: seq<Stage>): map<Address, nat> {
    if ts == [] then rows else Populated(Kept(rows, ts[..|ts| - 1]), ts[|ts| - 1].offer)
  }

  // ---------- ranges ----------

  predicate Tiled(ts: seq<Stage>, base: int) {
    && (ts != [] ==> ts[0].from == base + 1)
    && (forall t :: t in ts ==> t.from <= t.to)
    && (forall i, j :: 0 <= i < |ts| && j == i + 1 < |ts| ==> ts[j].from == ts[i].to + 1)
  }

  lemma {:induction false} TiledAscends(ts: seq<Stage>, base: int, i: nat, j: nat)
    requires Tiled(ts, base) && i < j < |ts|
    ensures ts[i].to < ts[j].from
  {
    if j == i + 1 {
    } else {
      TiledAscends(ts, base, i, j - 1);
      assert ts[j - 1] in ts;
    }
  }

  /** No non-empty recipe of the range comes in a later block than the newest one. */
  lemma {:induction false} NonEmptyIsLatest(ls: seq<RecipeLog>, v: Address, from: int, to: int, i: nat)
    requires InChainOrder(ls) && i < |ls| && InRange(ls[i], v, from, to) && ls[i].recipe != []
    ensures NewestNonEmptyIn(ls, v, from, to).Some?
    ensures ls[i].block <= NewestNonEmptyIn(ls, v, from, to).value.block
  {
    var n := |ls| - 1;
    if InRange(ls[n], v, from, to) && ls[n].recipe != [] {
      if i < n {
        assert Before(ls[i], ls[n]);
      }
    } else {
      assert ls[..n][i] == ls[i];
      NonEmptyIsLatest(ls[..n], v, from, to, i);
    }
  }

  /** The newest non-empty recipe is that of any part that holds it. */
  lemma {:induction false} NonEmptyInPart(ls: seq<RecipeLog>, v: Address, from: int, to: int, a: int, b: int)
    requires from <= a && b <= to
    requires var e := NewestNonEmptyIn(ls, v, from, to); e.Some? && InRange(e.value, v, a, b)
    ensures NewestNonEmptyIn(ls, v, a, b) == NewestNonEmptyIn(ls, v, from, to)
  {
    var n := |ls| - 1;
    if InRange(ls[n], v, from, to) && ls[n].recipe != [] {
    } else {
      NonEmptyInPart(ls[..n], v, from, to, a, b);
    }
  }

  /** A later range changes nothing. */
  lemma LaterKeeps(ls: seq<RecipeLog>, v: Address, from: int, to: int, a: int, b: int, rows: map<Address, nat>)
    requires InChainOrder(ls) && from <= a && b <= to
    requires var e := NewestNonEmptyIn(ls, v, from, to); e.Some? && e.value.block < a
    ensures RangeOutcome(rows, ls, v, a, b) == rows
  {
    var n := NewestIn(ls, v, a, b);
    if HasRecipe(n) {
      var i :| 0 <= i < |ls| && ls[i] == n.value;
      NonEmptyIsLatest(ls, v, from, to, i);
      assert false;
    }
  }

  /** The range that holds it leaves it, unless an empty recipe follows it there. */
  lemma HoldingRange(ls: seq<RecipeLog>, v: Address, from: int, to: int, a: int, b: int, rows: map<Address, nat>)
    requires from <= a && b <= to
    requires var e := NewestNonEmptyIn(ls, v, from, to); e.Some? && InRange(e.value, v, a, b)
    ensures var e := NewestNonEmptyIn(ls, v, from, to);
            RangeOutcome(rows, ls, v, a, b) == if NewestIn(ls, v, a, b) == e then RecipeMap(e.value.recipe) else rows
  {
    NonEmptyInPart(ls, v, from, to, a, b);
    if HasRecipe(NewestIn(ls, v, a, b)) {
      NewestIsNonEmpty(ls, v, a, b);
    }
  }

  // ---------- what is stored in the end ----------

  lemma {:induction false} KeptFull(rows: map<Address, nat>, ts: seq<Stage>)
    requires rows != map[]
    ensures Kept(rows, ts) == rows
  {
    if ts == [] {
    } else {
      KeptFull(rows, ts[..|ts| - 1]);
    }
  }

  lemma StoredSnoc(ls: seq<RecipeLog>, v: Address, init: seq<Stage>, t: Stage)
    ensures Stored(ls, v, init + [t]) == Populated(RangeOutcome(Stored(ls, v, init), ls, v, t.from, t.to), t.offer)
  {
    assert (init + [t])[..|init|] == init;
  }

  lemma KeptSnoc(rows: map<Address, nat>, init: seq<Stage>, t: Stage)
    ensures Kept(rows, init + [t]) == Populated(Kept(rows, init), t.offer)
  {
    assert (init + [t])[..|init|] == init;
  }

  /** Stages after the newest non-empty recipe of a range only populate. */
  lemma {:induction false} StoredAfter(ls: seq<RecipeLog>, v: Address, from: int, to: int, pre: seq<Stage>,
                                       ts: seq<Stage>)
    requires InChainOrder(ls) && NewestNonEmptyIn(ls, v, from, to).Some?
    requires forall t :: t in ts ==>
               from <= t.from && t.to <= to && NewestNonEmptyIn(ls, v, from, to).value.block < t.from
    ensures Stored(ls, v, pre + ts) == Kept(Stored(ls, v, pre), ts)
    decreases |ts|
  {
    if ts == [] {
      assert pre + ts == pre;
    } else {
      var init, t := ts[..|ts| - 1], ts[|ts| - 1];
      assert t in ts && forall x :: x in init ==> x in ts;
      assert ts == init + [t] && pre + ts == pre + init + [t];
      StoredAfter(ls, v, from, to, pre, init);
      LaterKeeps(ls, v, from, to, t.from, t.to, Stored(ls, v, pre + init));
      StoredSnoc(ls, v, pre + init, t);
      KeptSnoc(Stored(ls, v, pre), init, t);
    }
  }

  /** Every stage lies in the whole range, and those after the k-th lie after its end. */
  lemma TiledWithin(ts: seq<Stage>, base: int, k: nat)
    requires Tiled(ts, base) && k < |ts|
    ensures base < ts[k].from && ts[k].to <= ts[|ts| - 1].to
    ensures forall t :: t in ts[k + 1..] ==> base < t.from && ts[k].to < t.from && t.to <= ts[|ts| - 1].to
  {
    TiledFrom(ts, base, k);
    TiledTo(ts, base, k);
    forall t | t in ts[k + 1..] ensures base < t.from && ts[k].to < t.from && t.to <= ts[|ts| - 1].to {
      var i :| 0 <= i < |ts[k + 1..]| && ts[k + 1..][i] == t;
      var j := k + 1 + i;
      assert ts[j] == t;
      TiledAscends(ts, base, k, j);
      TiledFrom(ts, base, j);
      TiledTo(ts, base, j);
    }
  }

  lemma TiledFrom(ts: seq<Stage>, base: int, k: nat)
    requires Tiled(ts, base) && k < |ts|
    ensures base < ts[k].from
  {
    assert ts[0] in ts;
    if k > 0 {
      TiledAscends(ts, base, 0, k);
    }
  }

  lemma TiledTo(ts: seq<Stage>, base: int, k: nat)
    requires Tiled(ts, base) && k < |ts|
    ensures ts[k].to <= ts[|ts| - 1].to
  {
    if k < |ts| - 1 {
      TiledAscends(ts, base, k, |ts| - 1);
      assert ts[|ts| - 1] in ts;
    }
  }

  function EndOf(ts: seq<Stage>, base: int): int { if ts == [] then base else ts[|ts| - 1].to }

  lemma TiledParts(pre: seq<Stage>, t: Stage, later: seq<Stage>, base: int, ts: seq<Stage>)
    requires ts == pre + [t] + later && Tiled(ts, base)
    ensures base < t.from && t.to <= EndOf(ts, base)
    ensures forall x :: x in later ==> base < x.from && t.to < x.from && x.to <= EndOf(ts, base)
  {
    assert ts[|pre|] == t && ts[|pre| + 1..] == later;
    TiledWithin(ts, base, |pre|);
  }

  /** Stages from `base` on, one of which holds the newest non-empty recipe: the rows are that recipe
      exactly if no empty one follows it in its own range, or it equals what was stored before, or
      populated since where nothing was. */
  lemma NewestStoredIff(ls: seq<RecipeLog>, v: Address, pre: seq<Stage>, t: Stage, later: seq<Stage>, base: int,
                        ts: seq<Stage>, e: RecipeLog)
    requires InChainOrder(ls) && ts == pre + [t] + later && Tiled(ts, base)
    requires NewestNonEmptyIn(ls, v, base + 1, EndOf(ts, base)) == Some(e) && t.from <= e.block <= t.to
    ensures Stored(ls, v, ts) == RecipeMap(e.recipe) <==>
              || NewestIn(ls, v, t.from, t.to) == Some(e)
              || Kept(Stored(ls, v, pre), [t] + later) == RecipeMap(e.recipe)
  {
    TiledParts(pre, t, later, base, ts);
    NewestDecides(ls, v, base + 1, EndOf(ts, base), pre, t, later, e);
  }

  lemma NewestDecides(ls: seq<RecipeLog>, v: Address, from: int, to: int, pre: seq<Stage>, t: Stage,
                      later: seq<Stage>, e: RecipeLog)
    requires InChainOrder(ls) && NewestNonEmptyIn(ls, v, from, to) == Some(e)
    requires from <= t.from <= e.block <= t.to <= to
    requires forall x :: x in later ==> from <= x.from && x.to <= to && t.to < x.from
    ensures Stored(ls, v, pre + [t] + later) == RecipeMap(e.recipe) <==>
              || NewestIn(ls, v, t.from, t.to) == Some(e)
              || Kept(Stored(ls, v, pre), [t] + later) == RecipeMap(e.recipe)
  {
    StoredParts(ls, v, from, to, pre, t, later);
    HoldingDecides(ls, v, from, to, Stored(ls, v, pre), t, later);
  }

  lemma StoredParts(ls: seq<RecipeLog>, v: Address, from: int, to: int, pre: seq<Stage>, t: Stage, later: seq<Stage>)
    requires InChainOrder(ls) && NewestNonEmptyIn(ls, v, from, to).Some?
    requires forall x :: x in later ==>
               from <= x.from && x.to <= to && NewestNonEmptyIn(ls, v, from, to).value.block < x.from
    ensures Stored(ls, v, pre + [t] + later) ==
            Kept(Populated(RangeOutcome(Stored(ls, v, pre), ls, v, t.from, t.to), t.offer), later)
    ensures Kept(Stored(ls, v, pre), [t] + later) == Kept(Populated(Stored(ls, v, pre), t.offer), later)
  {
    StoredAfter(ls, v, from, to, pre + [t], later);
    StoredSnoc(ls, v, pre, t);
    KeptCons(Stored(ls, v, pre), t, later);
  }

  /** The stage that holds the newest non-empty recipe, and those that only populate after it. */
  lemma HoldingDecides(ls: seq<RecipeLog>, v: Address, from: int, to: int, before: map<Address, nat>, t: Stage,
                       later: seq<Stage>)
    requires from <= t.from && t.to <= to
    requires var e := NewestNonEmptyIn(ls, v, from, to); e.Some? && InRange(e.value, v, t.from, t.to)
    ensures var e := NewestNonEmptyIn(ls, v, from, to).value;
            Kept(Populated(RangeOutcome(before, ls, v, t.from, t.to), t.offer), later) == RecipeMap(e.recipe) <==>
              || NewestIn(ls, v, t.from, t.to) == Some(e)
              || Kept(Populated(before, t.offer), later) == RecipeMap(e.recipe)
  {
    var e := NewestNonEmptyIn(ls, v, from, to).value;
    HoldingRange(ls, v, from, to, t.from, t.to, before);
    NonEmptyRecipe(e.recipe);
    KeptFull(RecipeMap(e.recipe), later);
  }

  lemma {:induction false} KeptConcat(rows: map<Address, nat>, a: seq<Stage>, b: seq<Stage>)
    ensures Kept(rows, a + b) == Kept(Kept(rows, a), b)
    decreases |b|
  {
    if b == [] {
      assert a + b == a;
    } else {
      assert (a + b)[..|a + b| - 1] == a + b[..|b| - 1];
      KeptConcat(rows, a, b[..|b| - 1]);
    }
  }

  lemma KeptCons(rows: map<Address, nat>, t: Stage, later: seq<Stage>)
    ensures Kept(rows, [t] + later) == Kept(Populated(rows, t.offer), later)
  {
    assert [t][..0] == [];
    KeptConcat(rows, [t], later);
  }

  // ---------- completed ticks ----------

  /** What a tick with work may take as genesis: nothing unless it lists the vault and has it indexed. */
  function StageOf(startBlock: nat, chain: Chain, db: Db, env: TickEnv, birth: CreationLog): Stage {
    var from := From(startBlock, db, env);
    var to := To(from, env.head);
    var asked := birth.vault in env.rowOrder && birth.vault in VaultsAfter(db, chain, from, to);
    Stage(from, to, if asked then GenesisOffer(env, birth.root, birth.vault) else [])
  }

  function Stages(startBlock: nat, chain: Chain, atts: seq<Attempt>, birth: CreationLog): (ts: seq<Stage>)
    ensures |ts| == |atts|
    decreases |atts|
  {
    if atts == [] then []
    else
      var init := atts[..|atts| - 1];
      Stages(startBlock, chain, init, birth)
      + [StageOf(startBlock, chain, Run(startBlock, chain, EMPTY_DB, init), atts[|atts| - 1].env, birth)]
  }

  predicate AllCompleted(startBlock: nat, chain: Chain, atts: seq<Attempt>)
    decreases |atts|
  {
    atts == [] ||
    (AllCompleted(startBlock, chain, atts[..|atts| - 1]) &&
     Completes(startBlock, chain, Run(startBlock, chain, EMPTY_DB, atts[..|atts| - 1]), atts[|atts| - 1]))
  }

  lemma IndexedAfterRecipes(chain: Chain, db: Db, from: int, to: int)
    ensures AfterRecipes(chain, db, from, to).baskets.Keys == VaultsAfter(db, chain, from, to)
  {
    var db1 := AfterBaskets(chain, db, from, to);
    VaultsAfterBaskets(db, chain, from, to);
    OnlyReplacementsKeepBaskets(db1, RecipeUpdates(chain.recipes, RegistryVaults(db1), from, to));
  }

  /** Exactly what a plan replaces a vault's rows by. */
  lemma PlanReplacesExactly(startBlock: nat, chain: Chain, env: TickEnv, db: Db, v: Address, birth: CreationLog,
                            c: int, to: int, r: Recipe)
    requires Vault(startBlock, chain, v, birth) && BasketOk(db, v, birth, c) && c <= to
    ensures var n := NewestIn(chain.recipes, v, c + 1, to);
            ReplaceConstituents(v, r) in Plan(chain, env, db, c + 1, to) <==>
              if HasRecipe(n) then r == n.value.recipe
              else && RowsOf(db.constituents, v) == map[] && r == GenesisOffer(env, birth.root, v) && r != []
                   && v in env.rowOrder && v in VaultsAfter(db, chain, c + 1, to)
  {
    VaultAfterRecipes(startBlock, chain, db, v, birth, c, to);
    GenesisWriteOf(startBlock, chain, env, db, v, birth, c, to, r);
    PlanReplaces(chain, env, db, v, c, to, r);
    IndexedAfterRecipes(chain, db, c + 1, to);
  }

  /** The rows a plan leaves. */
  lemma PlanStores(startBlock: nat, chain: Chain, env: TickEnv, db: Db, v: Address, birth: CreationLog,
                   c: int, to: int, ws: seq<Write>, offer: Recipe)
    requires Vault(startBlock, chain, v, birth) && BasketOk(db, v, birth, c) && c <= to
    requires ws == Plan(chain, env, db, c + 1, to) && WritesOk(chain, env, db, v, birth, c, to, ws)
    requires offer == if v in env.rowOrder && v in VaultsAfter(db, chain, c + 1, to)
                      then GenesisOffer(env, birth.root, v) else []
    ensures BasketOk(ApplyWrites(db, ws), v, birth, to)
    ensures RowsOf(ApplyWrites(db, ws).constituents, v) ==
            Populated(RangeOutcome(RowsOf(db.constituents, v), chain.recipes, v, c + 1, to), offer)
  {
    assert ws[..|ws|] == ws;
    VaultAfterPrefix(chain, env, db, v, birth, c, to, ws, |ws|);
    var n, last := NewestIn(chain.recipes, v, c + 1, to), LastReplace(ws, v);
    if last.Some? {
      PlanReplacesExactly(startBlock, chain, env, db, v, birth, c, to, last.value);
    }
    if HasRecipe(n) {
      NonEmptyRecipe(n.value.recipe);
      PlanReplacesExactly(startBlock, chain, env, db, v, birth, c, to, n.value.recipe);
    } else {
      PlanReplacesExactly(startBlock, chain, env, db, v, birth, c, to, offer);
    }
  }

  /** A completed tick is its stage. */
  lemma TickStores(startBlock: nat, chain: Chain, db: Db, a: Attempt, v: Address, birth: CreationLog, c: int)
    requires startBlock > 0 && Vault(startBlock, chain, v, birth) && BasketOk(db, v, birth, c)
    requires c == LastBlock(startBlock, db.checkpoint, 0) && Completes(startBlock, chain, db, a)
    ensures var t, db' := StageOf(startBlock, chain, db, a.env, birth), Tick(startBlock, chain, db, a);
            && t.from == c + 1 && t.from <= t.to && LastBlock(startBlock, db'.checkpoint, 0) == t.to
            && BasketOk(db', v, birth, t.to)
            && RowsOf(db'.constituents, v) ==
               Populated(RangeOutcome(RowsOf(db.constituents, v), chain.recipes, v, t.from, t.to), t.offer)
  {
    TickCheckpoint(startBlock, chain, db, a);
    var n := TickIsPrefix(startBlock, chain, db, a);
    var to := To(c + 1, a.env.head);
    var ws := Plan(chain, a.env, db, c + 1, to);
    assert ws[..n] == ws;
    PlanWritesOk(startBlock, chain, a.env, db, v, birth, c, to);
    PlanStores(startBlock, chain, a.env, db, v, birth, c, to, ws, StageOf(startBlock, chain, db, a.env, birth).offer);
  }

  /** A completed tick that schedules nothing gives a listed vault without rows the recipe persisted under
      its root at deploy, and only failing that the one the vault answers now. */
  lemma GenesisIsPersistedFirst(startBlock: nat, chain: Chain, db: Db, a: Attempt, v: Address, birth: CreationLog,
                                c: int)
    requires startBlock > 0 && Vault(startBlock, chain, v, birth) && BasketOk(db, v, birth, c)
    requires c == LastBlock(startBlock, db.checkpoint, 0) && Completes(startBlock, chain, db, a)
    requires birth.block <= LastBlock(startBlock, Tick(startBlock, chain, db, a).checkpoint, 0)
    requires v in a.env.rowOrder && RowsOf(db.constituents, v) == map[]
    requires forall l :: l in chain.recipes && l.vault == v && l.block > c ==>
               l.block > LastBlock(startBlock, Tick(startBlock, chain, db, a).checkpoint, 0)
    ensures var rows := RowsOf(Tick(startBlock, chain, db, a).constituents, v);
            if birth.root != "" && birth.root in a.env.persisted && a.env.persisted[birth.root] != []
            then rows == RecipeMap(a.env.persisted[birth.root])
            else rows == if v in a.env.live then RecipeMap(a.env.live[v]) else map[]
  {
    var t := StageOf(startBlock, chain, db, a.env, birth);
    TickStores(startBlock, chain, db, a, v, birth, c);
    assert NewestIn(chain.recipes, v, t.from, t.to).None?;
    OfferAsked(startBlock, chain, db, a.env, v, birth, c);
  }

  /** A vault created by the end of the range is asked for its genesis. */
  lemma OfferAsked(startBlock: nat, chain: Chain, db: Db, env: TickEnv, v: Address, birth: CreationLog, c: int)
    requires startBlock > 0 && Vault(startBlock, chain, v, birth) && BasketOk(db, v, birth, c)
    requires c == LastBlock(startBlock, db.checkpoint, 0) && v in env.rowOrder
    requires birth.block <= StageOf(startBlock, chain, db, env, birth).to
    ensures StageOf(startBlock, chain, db, env, birth).offer == GenesisOffer(env, birth.root, v)
  {
    var t := StageOf(startBlock, chain, db, env, birth);
    if birth.block > c {
      assert birth in chain.creations && t.from <= birth.block <= t.to;
      assert birth.vault in set x | x in chain.creations && t.from <= x.block <= t.to :: x.vault;
    }
  }

  /** A run seen by one registry vault: its rows, whether it is indexed, and the blocks it has read. */
  ghost predicate Follows(startBlock: nat, chain: Chain, db: Db, v: Address, birth: CreationLog, ts: seq<Stage>) {
    var c := LastBlock(startBlock, db.checkpoint, 0);
    && RowsOf(db.constituents, v) == Stored(chain.recipes, v, ts)
    && BasketOk(db, v, birth, c) && Tiled(ts, startBlock - 1)
    && c == EndOf(ts, startBlock - 1)
  }

  lemma TiledSnoc(ts: seq<Stage>, base: int, t: Stage)
    requires Tiled(ts, base) && t.from <= t.to && t.from == (if ts == [] then base else ts[|ts| - 1].to) + 1
    ensures Tiled(ts + [t], base)
  {
  }

  lemma FollowsStep(startBlock: nat, chain: Chain, db: Db, v: Address, birth: CreationLog, ts: seq<Stage>, t: Stage,
                    db': Db)
    requires Follows(startBlock, chain, db, v, birth, ts)
    requires t.from == LastBlock(startBlock, db.checkpoint, 0) + 1 && t.from <= t.to
    requires LastBlock(startBlock, db'.checkpoint, 0) == t.to && BasketOk(db', v, birth, t.to)
    requires RowsOf(db'.constituents, v) ==
             Populated(RangeOutcome(RowsOf(db.constituents, v), chain.recipes, v, t.from, t.to), t.offer)
    ensures Follows(startBlock, chain, db', v, birth, ts + [t])
  {
    StoredSnoc(chain.recipes, v, ts, t);
    TiledSnoc(ts, startBlock - 1, t);
  }

  /** Over every run of completed ticks a vault's rows are what its stages leave, empty recipes and changing
      genesis offers included; the stages are adjacent ranges from the start block to the checkpoint. */
  lemma {:induction false} RowsAreStored(startBlock: nat, chain: Chain, atts: seq<Attempt>, v: Address,
                                         birth: CreationLog)
    requires startBlock > 0 && Vault(startBlock, chain, v, birth) && AllCompleted(startBlock, chain, atts)
    ensures Follows(startBlock, chain, Run(startBlock, chain, EMPTY_DB, atts), v, birth,
                    Stages(startBlock, chain, atts, birth))
    decreases |atts|
  {
    if atts == [] {
      assert RowsOf(EMPTY_DB.constituents, v) == map[];
    } else {
      var init, a := atts[..|atts| - 1], atts[|atts| - 1];
      var db := Run(startBlock, chain, EMPTY_DB, init);
      RowsAreStored(startBlock, chain, init, v, birth);
      TickStores(startBlock, chain, db, a, v, birth, LastBlock(startBlock, db.checkpoint, 0));
      FollowsStep(startBlock, chain, db, v, birth, Stages(startBlock, chain, init, birth),
                  StageOf(startBlock, chain, db, a.env, birth), Tick(startBlock, chain, db, a));
    }
  }

  /** So for every run of completed ticks: the newest non-empty recipe up to the checkpoint is what is
      stored exactly if no empty one follows it in the range of the tick that read it, or it equals what
      was stored before, or populated since where nothing was. */
  lemma RunStoresNewestIff(startBlock: nat, chain: Chain, atts: seq<Attempt>, v: Address, birth: CreationLog,
                           pre: seq<Stage>, t: Stage, later: seq<Stage>, e: RecipeLog)
    requires startBlock > 0 && Vault(startBlock, chain, v, birth) && AllCompleted(startBlock, chain, atts)
    requires Stages(startBlock, chain, atts, birth) == pre + [t] + later && t.from <= e.block <= t.to
    requires NewestNonEmptyIn(chain.recipes, v, startBlock, CommittedBlock(startBlock, chain, atts)) == Some(e)
    ensures RowsOf(Run(startBlock, chain, EMPTY_DB, atts).constituents, v) == RecipeMap(e.recipe) <==>
              || NewestIn(chain.recipes, v, t.from, t.to) == Some(e)
              || Kept(Stored(chain.recipes, v, pre), [t] + later) == RecipeMap(e.recipe)
  {
    RowsAreStored(startBlock, chain, atts, v, birth);
    NewestStoredIff(chain.recipes, v, pre, t, later, startBlock - 1, Stages(startBlock, chain, atts, birth), e);
  }

  /** There is such a tick: each block up to the checkpoint lies in one stage. */
  lemma {:induction false} StageHolds(ts: seq<Stage>, base: int, block: int)
    returns (pre: seq<Stage>, t: Stage, later: seq<Stage>)
    requires Tiled(ts, base) && base < block <= EndOf(ts, base)
    ensures ts == pre + [t] + later && t.from <= block <= t.to
  {
    var init, last := ts[..|ts| - 1], ts[|ts| - 1];
    assert ts == init + [last] && (|ts| == 1 ==> last == ts[0]);
    if last.from <= block {
      pre, t, later := init, last, [];
    } else {
      assert ts[|ts| - 2] == init[|init| - 1];
      pre, t, later := StageHolds(init, base, block);
      later := later + [last];
    }
  }
}
