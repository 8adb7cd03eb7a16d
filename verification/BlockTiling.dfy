/** The block ranges that completed ticks commit: they tile the chain from the start block on. */
module BlockTiling {
  import opened Options
  import opened IndexerTypes
  import opened TickPlan

  /** The ranges a run commits, in order. */
  function Ranges(startBlock: nat, chain: Chain, db: Db, atts: seq<Attempt>): seq<(int, int)>
    decreases |atts|
  {
    if atts == [] then []
    else
      var init, a := atts[..|atts| - 1], atts[|atts| - 1];
      var before := Run(startBlock, chain, db, init);
      var rest := Ranges(startBlock, chain, db, init);
      if Completes(startBlock, chain, before, a) then
        rest + [(From(startBlock, before, a.env), To(From(startBlock, before, a.env), a.env.head))]
      else rest
  }

  /** What one tick does to the checkpoint, in blocks: without a reading of the head beyond the last block
      committed, or if not ready, nothing at all; otherwise a completed tick commits the next 9001 blocks,
      or all up to the head. */
  lemma TickSpan(startBlock: nat, chain: Chain, db: Db, a: Attempt)
    ensures var last := if db.checkpoint.Some? then db.checkpoint.value
                        else if startBlock > 0 then startBlock - 1 else a.env.head - 1;
            var db' := Tick(startBlock, chain, db, a);
            && (!a.env.ready || a.env.head <= last ==> db' == db && !Completes(startBlock, chain, db, a))
            && db'.checkpoint ==
               if !Completes(startBlock, chain, db, a) then db.checkpoint
               else Some(if a.env.head - last > 9001 then last + 9001 else a.env.head)
  {
    TickCheckpoint(startBlock, chain, db, a);
    if !HasWork(startBlock, db.checkpoint, a.env) {
      IdleTick(startBlock, chain, db, a);
    }
  }

  predicate Tiles(base: int, rs: seq<(int, int)>, top: int) {
    if rs == [] then top == base
    else
      var last := rs[|rs| - 1];
      && last.1 == top && last.0 <= last.1 <= last.0 + MAX_RANGE
      && Tiles(base, rs[..|rs| - 1], last.0 - 1)
  }

  /** Read as inequalities: the tiles are adjacent, start after `base`, end at `top`, and span at most
      9001 blocks each. */
  lemma {:induction false} TilesAre(base: int, rs: seq<(int, int)>, top: int)
    requires Tiles(base, rs, top)
    ensures base <= top <= base + 9001 * |rs|
    ensures forall i :: 0 <= i < |rs| ==> rs[i].0 <= rs[i].1 <= rs[i].0 + 9000
    ensures forall i :: 0 <= i < |rs| ==> rs[i].0 == if i == 0 then base + 1 else rs[i - 1].1 + 1
    ensures rs != [] ==> rs[|rs| - 1].1 == top
  {
    if rs == [] {
    } else {
      var init, n := rs[..|rs| - 1], |rs| - 1;
      TilesAre(base, init, rs[n].0 - 1);
      forall i | 0 <= i < n ensures rs[i].0 == if i == 0 then base + 1 else rs[i - 1].1 + 1 {
        var before := if i == 0 then base else init[i - 1].1;
        assert init[i].0 == before + 1;
      }
      assert n > 0 ==> rs[n - 1] == init[n - 1];
    }
  }

  /** One attempt moves the end of the committed blocks forward by one tile, or not at all. */
  lemma TickTile(startBlock: nat, chain: Chain, db: Db, a: Attempt)
    requires startBlock > 0 || db.checkpoint.Some?
    ensures var top, top' := LastBlock(startBlock, db.checkpoint, 0),
                             LastBlock(startBlock, Tick(startBlock, chain, db, a).checkpoint, 0);
            if Completes(startBlock, chain, db, a)
            then From(startBlock, db, a.env) == top + 1 && top' == To(top + 1, a.env.head) &&
              top < top' <= top + 1 + MAX_RANGE
            else top' == top
    ensures startBlock > 0 || Tick(startBlock, chain, db, a).checkpoint.Some?
  {
    TickCheckpoint(startBlock, chain, db, a);
    TileOf(startBlock, db.checkpoint, a.env, Completes(startBlock, chain, db, a),
           Tick(startBlock, chain, db, a).checkpoint);
  }

  lemma TileOf(startBlock: nat, checkpoint: Option<int>, env: TickEnv, completes: bool, after: Option<int>)
    requires startBlock > 0 || checkpoint.Some?
    requires completes ==> HasWork(startBlock, checkpoint, env)
    requires after == if completes then Some(To(LastBlock(startBlock, checkpoint, env.head) + 1, env.head))
                      else checkpoint
    ensures var top, top' := LastBlock(startBlock, checkpoint, 0), LastBlock(startBlock, after, 0);
            && LastBlock(startBlock, checkpoint, env.head) == top
            && if completes then top' == To(top + 1, env.head) && top < top' <= top + 1 + MAX_RANGE else top' == top
    ensures startBlock > 0 || after.Some?
  {
  }

  /** One more attempt adds one tile, or nothing. */
  predicate TileStep(rest: seq<(int, int)>, top: int, all: seq<(int, int)>, top': int) {
    || (all == rest && top' == top)
    || (all == rest + [(top + 1, top')] && top < top' <= top + 1 + MAX_RANGE)
  }

  lemma TilesSnoc(base: int, rest: seq<(int, int)>, top: int, all: seq<(int, int)>, top': int)
    requires Tiles(base, rest, top) && TileStep(rest, top, all, top')
    ensures Tiles(base, all, top')
  {
    if all != rest {
      assert all[..|all| - 1] == rest;
    }
  }

  /** The last block committed by a run. */
  function Top(startBlock: nat, chain: Chain, db: Db, atts: seq<Attempt>): int {
    LastBlock(startBlock, Run(startBlock, chain, db, atts).checkpoint, 0)
  }

  lemma TopSnoc(startBlock: nat, chain: Chain, db: Db, atts: seq<Attempt>)
    requires atts != []
    requires startBlock > 0 || Run(startBlock, chain, db, atts[..|atts| - 1]).checkpoint.Some?
    ensures var init := atts[..|atts| - 1];
            TileStep(Ranges(startBlock, chain, db, init), Top(startBlock, chain, db, init),
                     Ranges(startBlock, chain, db, atts), Top(startBlock, chain, db, atts))
    ensures startBlock > 0 || Run(startBlock, chain, db, atts).checkpoint.Some?
  {
    var init, a := atts[..|atts| - 1], atts[|atts| - 1];
    var all := Ranges(startBlock, chain, db, atts);
    var completes := TickMoves(startBlock, chain, Run(startBlock, chain, db, init), a,
                               Run(startBlock, chain, db, atts), Ranges(startBlock, chain, db, init), all);
    CheckpointStep(startBlock, Run(startBlock, chain, db, init).checkpoint, a.env, completes,
                   Run(startBlock, chain, db, atts).checkpoint, Ranges(startBlock, chain, db, init), all);
  }

  /** A tick that completes moves the checkpoint over its range; others leave it. */
  predicate Moves(startBlock: nat, checkpoint: Option<int>, env: TickEnv, completes: bool, after: Option<int>,
                  rest: seq<(int, int)>, all: seq<(int, int)>)
  {
    var from := LastBlock(startBlock, checkpoint, env.head) + 1;
    && (completes ==> HasWork(startBlock, checkpoint, env))
    && after == (if completes then Some(To(from, env.head)) else checkpoint)
    && all == if completes then rest + [(from, To(from, env.head))] else rest
  }

  lemma TickMoves(startBlock: nat, chain: Chain, db: Db, a: Attempt, after: Db, rest: seq<(int, int)>,
                  all: seq<(int, int)>)
    returns (completes: bool)
    requires after == Tick(startBlock, chain, db, a)
    requires all == if Completes(startBlock, chain, db, a)
                    then rest + [(From(startBlock, db, a.env), To(From(startBlock, db, a.env), a.env.head))] else rest
    ensures Moves(startBlock, db.checkpoint, a.env, completes, after.checkpoint, rest, all)
  {
    completes := Completes(startBlock, chain, db, a);
    TickCheckpoint(startBlock, chain, db, a);
  }

  /** A checkpoint that moves to the end of its range adds a tile. */
  lemma CheckpointStep(startBlock: nat, checkpoint: Option<int>, env: TickEnv, completes: bool, after: Option<int>,
                       rest: seq<(int, int)>, all: seq<(int, int)>)
    requires startBlock > 0 || checkpoint.Some?
    requires Moves(startBlock, checkpoint, env, completes, after, rest, all)
    ensures TileStep(rest, LastBlock(startBlock, checkpoint, 0), all, LastBlock(startBlock, after, 0))
    ensures startBlock > 0 || after.Some?
  {
  }

  lemma {:induction false} RunHasBase(startBlock: nat, chain: Chain, db: Db, atts: seq<Attempt>)
    requires startBlock > 0 || db.checkpoint.Some?
    ensures startBlock > 0 || Run(startBlock, chain, db, atts).checkpoint.Some?
    decreases |atts|
  {
    if atts == [] {
    } else {
      RunHasBase(startBlock, chain, db, atts[..|atts| - 1]);
      TopSnoc(startBlock, chain, db, atts);
    }
  }

  lemma {:induction false} RunTilesTo(startBlock: nat, chain: Chain, db: Db, atts: seq<Attempt>, all: seq<(int, int)>,
                                      top: int)
    requires startBlock > 0 || db.checkpoint.Some?
    requires all == Ranges(startBlock, chain, db, atts) && top == Top(startBlock, chain, db, atts)
    ensures Tiles(LastBlock(startBlock, db.checkpoint, 0), all, top)
    decreases |atts|
  {
    if atts == [] {
    } else {
      var init := atts[..|atts| - 1];
      var rest, before := Ranges(startBlock, chain, db, init), Top(startBlock, chain, db, init);
      RunTilesTo(startBlock, chain, db, init, rest, before);
      RunHasBase(startBlock, chain, db, init);
      TopSnoc(startBlock, chain, db, atts);
      TilesSnoc(LastBlock(startBlock, db.checkpoint, 0), rest, before, all, top);
    }
  }

  /** Over every run the committed ranges are contiguous and disjoint, begin right after the start
      (or the given checkpoint), and span at most 9001 blocks each. */
  lemma {:induction false} RunTiles(startBlock: nat, chain: Chain, db: Db, atts: seq<Attempt>)
    requires startBlock > 0 || db.checkpoint.Some?
    ensures Tiles(LastBlock(startBlock, db.checkpoint, 0), Ranges(startBlock, chain, db, atts),
                  Top(startBlock, chain, db, atts))
  {
    RunTilesTo(startBlock, chain, db, atts, Ranges(startBlock, chain, db, atts), Top(startBlock, chain, db, atts));
  }

  /** The checkpoint never moves back, whatever happens to the ticks after a point of the run. */
  lemma {:induction false} CheckpointMonotone(startBlock: nat, chain: Chain, db: Db, atts: seq<Attempt>, n: nat)
    requires startBlock > 0 || db.checkpoint.Some?
    requires n <= |atts|
    ensures Top(startBlock, chain, db, atts[..n]) <= Top(startBlock, chain, db, atts)
    decreases |atts|
  {
    if n == |atts| {
      assert atts[..n] == atts;
    } else {
      var init := atts[..|atts| - 1];
      assert init[..n] == atts[..n];
      CheckpointMonotone(startBlock, chain, db, init, n);
      RunHasBase(startBlock, chain, db, init);
      TopSnoc(startBlock, chain, db, atts);
    }
  }

  /** Every tick of the run completes, with the head at `h`. */
  ghost predicate AllComplete(startBlock: nat, chain: Chain, db: Db, atts: seq<Attempt>, h: int)
    decreases |atts|
  {
    atts == [] ||
    (var init, a := atts[..|atts| - 1], atts[|atts| - 1];
     AllComplete(startBlock, chain, db, init, h) && a.env.head == h &&
     Completes(startBlock, chain, Run(startBlock, chain, db, init), a))
  }

  function Reached(c: int, n: nat, h: int): int { if n == 0 || c + 9001 * n < h then c + 9001 * n else h }

  lemma {:induction false} CatchUpProgress(startBlock: nat, chain: Chain, db: Db, atts: seq<Attempt>, h: int)
    requires startBlock > 0 || db.checkpoint.Some?
    requires AllComplete(startBlock, chain, db, atts, h)
    ensures LastBlock(startBlock, Run(startBlock, chain, db, atts).checkpoint, 0)
            == Reached(LastBlock(startBlock, db.checkpoint, 0), |atts|, h)
    ensures atts != [] ==> LastBlock(startBlock, db.checkpoint, 0) + 9001 * (|atts| - 1) < h
    ensures startBlock > 0 || Run(startBlock, chain, db, atts).checkpoint.Some?
    decreases |atts|
  {
    if atts == [] {
    } else {
      CatchUpProgress(startBlock, chain, db, atts[..|atts| - 1], h);
      TickTile(startBlock, chain, Run(startBlock, chain, db, atts[..|atts| - 1]), atts[|atts| - 1]);
    }
  }

  /** With the head standing still at h, completed ticks reach it after exactly ceil((h - c) / 9001)
      of them, the first number n with h - c <= 9001 * n: no sooner, and there is no further one. */
  lemma {:induction false} CatchUp(startBlock: nat, chain: Chain, db: Db, atts: seq<Attempt>, h: int)
    requires startBlock > 0 || db.checkpoint.Some?
    requires LastBlock(startBlock, db.checkpoint, 0) <= h
    requires AllComplete(startBlock, chain, db, atts, h)
    ensures var behind := h - LastBlock(startBlock, db.checkpoint, 0);
            && (atts != [] ==> 9001 * (|atts| - 1) < behind)
            && (LastBlock(startBlock, Run(startBlock, chain, db, atts).checkpoint, 0) == h <==>
                  behind <= 9001 * |atts|)
  {
    CatchUpProgress(startBlock, chain, db, atts, h);
  }

  // ---------- without a start block ----------

  /** Where a tick starts is independent of the head exactly when there is a start block or a
      checkpoint. */
  lemma FloorIsFixedIff(startBlock: nat, checkpoint: Option<int>)
    ensures (forall h, k :: LastBlock(startBlock, checkpoint, h) == LastBlock(startBlock, checkpoint, k))
            <==> startBlock > 0 || checkpoint.Some?
  {
    if startBlock == 0 && checkpoint.None? {
      assert LastBlock(startBlock, checkpoint, 0) != LastBlock(startBlock, checkpoint, 1);
    }
  }

  lemma LastRange(startBlock: nat, chain: Chain, db: Db, init: seq<Attempt>, a: Attempt, mid: Db)
    requires Ranges(startBlock, chain, db, init) == [] && Run(startBlock, chain, db, init) == mid
    ensures var from := From(startBlock, mid, a.env);
            Ranges(startBlock, chain, db, init + [a]) ==
            if Completes(startBlock, chain, mid, a) then [(from, To(from, a.env.head))] else []
    ensures Run(startBlock, chain, db, init + [a]) == Tick(startBlock, chain, mid, a)
  {
    assert (init + [a])[..|init|] == init;
  }

  lemma AbortedRun(chain: Chain, db: Db, a: Attempt)
    requires !Completes(0, chain, db, a)
    ensures Ranges(0, chain, db, [a]) == [] && Run(0, chain, db, [a]) == Tick(0, chain, db, a)
    ensures Tick(0, chain, db, a).checkpoint == db.checkpoint
  {
    TickCheckpoint(0, chain, db, a);
    LastRange(0, chain, db, [], a, db);
    assert [] + [a] == [a];
  }

  /** While nothing is committed, the next completed tick starts at its head. */
  lemma FirstRange(chain: Chain, db: Db, init: seq<Attempt>, a: Attempt, atts: seq<Attempt>, mid: Db)
    requires mid.checkpoint.None? && Completes(0, chain, mid, a) && atts == init + [a]
    requires Ranges(0, chain, db, init) == [] && Run(0, chain, db, init) == mid
    ensures Ranges(0, chain, db, atts) == [(a.env.head, a.env.head)]
  {
    LastRange(0, chain, db, init, a, mid);
    HeadOnly(mid, a.env);
  }

  lemma HeadOnly(db: Db, env: TickEnv)
    requires db.checkpoint.None?
    ensures From(0, db, env) == env.head && To(From(0, db, env), env.head) == env.head
  {
  }

  /** Otherwise a first tick that aborts, however far it came, loses its block for good, and all blocks
      up to the next tick's head with it: the retry starts at the new head. */
  lemma FirstAbortSkipsBlock(chain: Chain, db: Db, first: Attempt, second: Attempt)
    requires db.checkpoint.None? && second.env.head > first.env.head
    requires !Completes(0, chain, db, first) && Completes(0, chain, Tick(0, chain, db, first), second)
    ensures first.env.ready ==> HasWork(0, db.checkpoint, first.env) && From(0, db, first.env) == first.env.head
    ensures Ranges(0, chain, db, [first, second]) == [(second.env.head, second.env.head)]
  {
    AbortedRun(chain, db, first);
    FirstRange(chain, db, [first], second, [first, second], Tick(0, chain, db, first));
  }
}
