/** Queues that ticks do not list: which event rows a run has without any assumption on what its ticks
    list, and that a row missed while its block was read is missed for good. */
module ForwardListing {
  import opened BlockTiling
  import opened FillCutoffs
  import opened ForwardHistory
  import opened ForwardReadModel
  import opened ForwardTickets
  import opened IndexerTypes
  import opened Options
  import opened TickPlan

  /** The events a tick got to write. */
  function Written(startBlock: nat, chain: Chain, db: Db, a: Attempt): seq<TicketEvent> {
    var ws := TickWrites(startBlock, chain, db, a.env);
    EventsIn(if a.writes < |ws| then ws[..a.writes] else ws)
  }

  predicate Covers(startBlock: nat, db: Db, env: TickEnv, block: int) {
    var from := From(startBlock, db, env);
    HasWork(startBlock, db.checkpoint, env) && from <= block <= To(from, env.head)
  }

  /** The tick lists the log's queue under a vault it finds indexed. */
  predicate ListsFor(startBlock: nat, chain: Chain, db: Db, env: TickEnv, v: Address, q: Address) {
    var from := From(startBlock, db, env);
    (v, q) in env.pairs && v in VaultsAfter(db, chain, from, To(from, env.head))
  }

  /** The tick read the log's block, listed its queue under an indexed vault, and got as far as writing
      the log's event. */
  ghost predicate Wrote(startBlock: nat, chain: Chain, db: Db, a: Attempt, v: Address, l: ForwardLog) {
    && Covers(startBlock, db, a.env, l.block)
    && ListsFor(startBlock, chain, db, a.env, v, l.queue)
    && Decode(v, SeenLog(l, a.env.cutoffs)) in Written(startBlock, chain, db, a)
  }

  ghost predicate SomeWrote(startBlock: nat, chain: Chain, db: Db, a: Attempt, l: ForwardLog) {
    exists v :: Wrote(startBlock, chain, db, a, v, l)
  }

  // ---------- one tick ----------

  lemma {:induction false} EventKeysOf(t: ForwardTables, es: seq<TicketEvent>, key: LogKey)
    ensures key in ApplyForwardAll(t, es).events <==> key in t.events || exists e :: e in es && EventKey(e) == key
    decreases |es|
  {
    if es == [] {
    } else {
      EventKeysOf(ApplyForward(t, es[0]), es[1..], key);
      assert forall e :: e in es <==> e == es[0] || e in es[1..];
    }
  }

  lemma TickWritten(startBlock: nat, chain: Chain, db: Db, a: Attempt)
    ensures Tick(startBlock, chain, db, a).forward == ApplyForwardAll(db.forward, Written(startBlock, chain, db, a))
  {
    var ws := TickWrites(startBlock, chain, db, a.env);
    ForwardTablesOf(db, if a.writes < |ws| then ws[..a.writes] else ws);
  }

  lemma WrittenFromRange(startBlock: nat, chain: Chain, db: Db, a: Attempt)
    ensures !HasWork(startBlock, db.checkpoint, a.env) ==> Written(startBlock, chain, db, a) == []
    ensures HasWork(startBlock, db.checkpoint, a.env) ==>
              var from := From(startBlock, db, a.env);
              var es := TickEvents(chain, db, a.env, from, To(from, a.env.head));
              && (forall e :: e in Written(startBlock, chain, db, a) ==> e in es)
              && (Completes(startBlock, chain, db, a) ==> Written(startBlock, chain, db, a) == es)
  {
    var ws := TickWrites(startBlock, chain, db, a.env);
    if HasWork(startBlock, db.checkpoint, a.env) {
      var from := From(startBlock, db, a.env);
      var to := To(from, a.env.head);
      PlanShape(chain, a.env, db, from, to);
      var n := if a.writes < |ws| then a.writes else |ws|;
      assert ws[..|ws|] == ws;
      PrefixForward(db, ws, n, TickEvents(chain, db, a.env, from, to));
    }
  }

  lemma SeenFrom(ls: seq<ForwardLog>, cutoffs: map<LogKey, nat>, x: ForwardLog) returns (l: ForwardLog)
    requires x in Seen(ls, cutoffs)
    ensures l in ls && x == SeenLog(l, cutoffs)
    ensures LogKeyOf(x) == LogKeyOf(l) && x.block == l.block && x.queue == l.queue
  {
    var i :| 0 <= i < |ls| && Seen(ls, cutoffs)[i] == x;
    l := ls[i];
  }

  lemma DecodedKey(v: Address, x: ForwardLog)
    ensures EventKey(Decode(v, x)) == LogKeyOf(x)
  {
  }

  /** An event with the log's key is the log's. */
  lemma EventIsLogs(vs: set<Address>, ls: seq<ForwardLog>, cutoffs: map<LogKey, nat>, pairs: seq<(Address, Address)>,
                    from: int, to: int, e: TicketEvent, l: ForwardLog)
    requires DistinctLogs(ls) && l in ls && EventKey(e) == LogKeyOf(l)
    requires e in ForwardEvents(vs, Seen(ls, cutoffs), pairs, from, to)
    ensures from <= l.block <= to && (e.vault, l.queue) in pairs && e.vault in vs
    ensures e == Decode(e.vault, SeenLog(l, cutoffs))
  {
    ForwardEventMembers(vs, Seen(ls, cutoffs), pairs, from, to);
    var x :| x in Seen(ls, cutoffs) && x.queue == e.queue && from <= x.block <= to && e == Decode(e.vault, x);
    var y := SeenFrom(ls, cutoffs, x);
    DecodedKey(e.vault, x);
    SameKeySameLog(ls, y, l);
  }

  lemma WrittenIsWrote(startBlock: nat, chain: Chain, db: Db, a: Attempt, e: TicketEvent, l: ForwardLog)
    requires DistinctLogs(chain.forward) && l in chain.forward
    requires e in Written(startBlock, chain, db, a) && EventKey(e) == LogKeyOf(l)
    ensures Wrote(startBlock, chain, db, a, e.vault, l)
  {
    WrittenFromRange(startBlock, chain, db, a);
    var from := From(startBlock, db, a.env);
    var to := To(from, a.env.head);
    EventIsLogs(VaultsAfter(db, chain, from, to), chain.forward, a.env.cutoffs, a.env.pairs, from, to, e, l);
  }

  lemma WroteIsWritten(startBlock: nat, chain: Chain, db: Db, a: Attempt, l: ForwardLog) returns (e: TicketEvent)
    requires SomeWrote(startBlock, chain, db, a, l)
    ensures e in Written(startBlock, chain, db, a) && EventKey(e) == LogKeyOf(l)
  {
    var v :| Wrote(startBlock, chain, db, a, v, l);
    e := Decode(v, SeenLog(l, a.env.cutoffs));
    DecodedKey(v, SeenLog(l, a.env.cutoffs));
  }

  /** A tick adds the row of a log exactly if it wrote the log. */
  lemma TickAddsIff(startBlock: nat, chain: Chain, db: Db, a: Attempt, l: ForwardLog)
    requires DistinctLogs(chain.forward) && l in chain.forward
    ensures LogKeyOf(l) in Tick(startBlock, chain, db, a).forward.events <==>
              LogKeyOf(l) in db.forward.events || SomeWrote(startBlock, chain, db, a, l)
  {
    TickWritten(startBlock, chain, db, a);
    EventKeysOf(db.forward, Written(startBlock, chain, db, a), LogKeyOf(l));
    if SomeWrote(startBlock, chain, db, a, l) {
      var e := WroteIsWritten(startBlock, chain, db, a, l);
    } else if e :| e in Written(startBlock, chain, db, a) && EventKey(e) == LogKeyOf(l) {
      WrittenIsWrote(startBlock, chain, db, a, e, l);
      assert false;
    }
  }

  /** A completed tick writes every log of its range whose queue it lists under an indexed vault. */
  lemma CompletedWrites(startBlock: nat, chain: Chain, db: Db, a: Attempt, v: Address, l: ForwardLog)
    requires l in chain.forward && Completes(startBlock, chain, db, a) && Covers(startBlock, db, a.env, l.block)
    requires ListsFor(startBlock, chain, db, a.env, v, l.queue)
    ensures Wrote(startBlock, chain, db, a, v, l)
  {
    var from := From(startBlock, db, a.env);
    var to := To(from, a.env.head);
    WrittenFromRange(startBlock, chain, db, a);
    var seen := Seen(chain.forward, a.env.cutoffs);
    var i :| 0 <= i < |chain.forward| && chain.forward[i] == l;
    assert seen[i] in seen;
    ForwardEventMembers(VaultsAfter(db, chain, from, to), seen, a.env.pairs, from, to);
  }

  // ---------- runs ----------

  /** Some attempt of the run wrote the log. */
  ghost predicate WrittenBy(startBlock: nat, chain: Chain, db: Db, atts: seq<Attempt>, l: ForwardLog)
    decreases |atts|
  {
    atts != [] &&
    var init := atts[..|atts| - 1];
    WrittenBy(startBlock, chain, db, init, l) ||
    SomeWrote(startBlock, chain, Run(startBlock, chain, db, init), atts[|atts| - 1], l)
  }

  /** For any run from any database, whatever its ticks list: a log has its event row exactly if it had it
      before or some attempt wrote it. */
  lemma {:induction false} EventRowIff(startBlock: nat, chain: Chain, db: Db, atts: seq<Attempt>, l: ForwardLog)
    requires DistinctLogs(chain.forward) && l in chain.forward
    ensures LogKeyOf(l) in Run(startBlock, chain, db, atts).forward.events <==>
              LogKeyOf(l) in db.forward.events || WrittenBy(startBlock, chain, db, atts, l)
    decreases |atts|
  {
    if atts == [] {
    } else {
      var init, a := atts[..|atts| - 1], atts[|atts| - 1];
      EventRowIff(startBlock, chain, db, init, l);
      TickAddsIff(startBlock, chain, Run(startBlock, chain, db, init), a, l);
    }
  }

  lemma {:induction false} RunConcat(startBlock: nat, chain: Chain, db: Db, a: seq<Attempt>, b: seq<Attempt>)
    ensures Run(startBlock, chain, db, a + b) == Run(startBlock, chain, Run(startBlock, chain, db, a), b)
    decreases |b|
  {
    if b == [] {
      assert a + b == a;
    } else {
      assert (a + b)[..|a + b| - 1] == a + b[..|b| - 1];
      RunConcat(startBlock, chain, db, a, b[..|b| - 1]);
    }
  }

  /** A run that starts at a checkpoint writes no log at or below it. */
  lemma {:induction false} NothingBelow(startBlock: nat, chain: Chain, db: Db, more: seq<Attempt>, l: ForwardLog)
    requires startBlock > 0 || db.checkpoint.Some?
    requires l.block <= LastBlock(startBlock, db.checkpoint, 0)
    ensures !WrittenBy(startBlock, chain, db, more, l)
    decreases |more|
  {
    if more == [] {
    } else {
      var init := more[..|more| - 1];
      NothingBelow(startBlock, chain, db, init, l);
      CheckpointMonotone(startBlock, chain, db, init, 0);
      RunHasBase(startBlock, chain, db, init);
      assert init[..0] == [];
      BelowIsNotCovered(startBlock, chain, db, Run(startBlock, chain, db, init), more[|more| - 1], l);
    }
  }

  lemma BelowIsNotCovered(startBlock: nat, chain: Chain, db: Db, mid: Db, a: Attempt, l: ForwardLog)
    requires startBlock > 0 || (db.checkpoint.Some? && mid.checkpoint.Some?)
    requires l.block <= LastBlock(startBlock, db.checkpoint, 0) <= LastBlock(startBlock, mid.checkpoint, 0)
    ensures !SomeWrote(startBlock, chain, mid, a, l)
  {
  }

  /** A committed log has its event row, now and after whatever follows, exactly if some attempt up to now
      read its block, listed its queue under an indexed vault and got as far as writing it. */
  lemma {:induction false} MissedForGood(startBlock: nat, chain: Chain, atts: seq<Attempt>, more: seq<Attempt>,
                                         l: ForwardLog, now: Db)
    requires DistinctLogs(chain.forward) && l in chain.forward && now == Run(startBlock, chain, EMPTY_DB, atts)
    requires startBlock > 0 || now.checkpoint.Some?
    requires l.block <= LastBlock(startBlock, now.checkpoint, 0)
    ensures LogKeyOf(l) in Run(startBlock, chain, EMPTY_DB, atts + more).forward.events <==>
              WrittenBy(startBlock, chain, EMPTY_DB, atts, l)
  {
    EventRowIff(startBlock, chain, EMPTY_DB, atts, l);
    RunConcat(startBlock, chain, EMPTY_DB, atts, more);
    EventRowIff(startBlock, chain, now, more, l);
    NothingBelow(startBlock, chain, now, more, l);
  }

  lemma {:induction false} UnlistedIsUnwritten(startBlock: nat, chain: Chain, db: Db, atts: seq<Attempt>, l: ForwardLog)
    requires forall a, p :: a in atts && p in a.env.pairs ==> p.1 != l.queue
    ensures !WrittenBy(startBlock, chain, db, atts, l)
    decreases |atts|
  {
    if atts == [] {
    } else {
      assert atts[|atts| - 1] in atts && forall a :: a in atts[..|atts| - 1] ==> a in atts;
      UnlistedIsUnwritten(startBlock, chain, db, atts[..|atts| - 1], l);
    }
  }

  /** So a queue that no tick listed while the blocks were read has lost its logs up to the checkpoint,
      although ticks list it later. */
  lemma {:induction false} UnlistedIsLost(startBlock: nat, chain: Chain, atts: seq<Attempt>, more: seq<Attempt>,
                                          l: ForwardLog, now: Db)
    requires DistinctLogs(chain.forward) && l in chain.forward && now == Run(startBlock, chain, EMPTY_DB, atts)
    requires startBlock > 0 || now.checkpoint.Some?
    requires l.block <= LastBlock(startBlock, now.checkpoint, 0)
    requires forall a, p :: a in atts && p in a.env.pairs ==> p.1 != l.queue
    ensures LogKeyOf(l) !in Run(startBlock, chain, EMPTY_DB, atts + more).forward.events
  {
    MissedForGood(startBlock, chain, atts, more, l, now);
    UnlistedIsUnwritten(startBlock, chain, EMPTY_DB, atts, l);
  }
}
