/** The forward-queue tables refine the chain: over every run of completed and aborted ticks, what the
    database holds at a checkpoint is what the logs up to that block mean. */
module ForwardReadModel {
  import opened Options
  import opened IndexerTypes
  import opened FillCutoffs
  import opened ForwardTickets
  import opened ForwardHistory
  import opened TickPlan

  // ---------- assumptions about the chain ----------

  predicate DistinctLogs(ls: seq<ForwardLog>) {
    forall i, j :: 0 <= i < j < |ls| ==> LogKeyOf(ls[i]) != LogKeyOf(ls[j])
  }

  /** Logs come in block order, have unique keys, and requests name an owner. */
  predicate LogsOk(ls: seq<ForwardLog>) {
    && Chronological(ls)
    && DistinctLogs(ls)
    && (forall l :: l in ls && IsRequestLog(l) ==> l.args.owner != "")
  }

  lemma LogsOkAlike(a: seq<ForwardLog>, b: seq<ForwardLog>)
    requires LogsOk(a) && Alike(a, b)
    ensures LogsOk(b)
  {
    forall i | 0 <= i < |b|
      ensures b[i].block == a[i].block && LogKeyOf(b[i]) == LogKeyOf(a[i])
      ensures IsRequestLog(b[i]) ==> b[i].args.owner != ""
    {
      assert Blank(a[i]) == Blank(b[i]) && a[i] in a;
    }
  }

  /** No queue is listed for two vaults. */
  predicate DistinctQueues(pairs: seq<(Address, Address)>) {
    forall i, j :: 0 <= i < j < |pairs| ==> pairs[i].1 != pairs[j].1
  }

  // ---------- the events of one tick ----------

  lemma QueueEventMembers(ls: seq<ForwardLog>, v: Address, q: Address, from: int, to: int)
    ensures forall e :: e in QueueEvents(ls, v, q, from, to) <==>
              exists l :: l in ls && l.queue == q && from <= l.block <= to && e == Decode(v, l)
  {
    var r := QueueLogs(ls, q, from, to);
    SelectMembers(ls, InQueue(q, from, to));
    KindMajorMembers(r);
    var km := KindMajor(r);
    forall e | e in QueueEvents(ls, v, q, from, to)
      ensures exists l :: l in ls && l.queue == q && from <= l.block <= to && e == Decode(v, l)
    {
      var i :| 0 <= i < |km| && DecodeAll(v, km)[i] == e;
      assert km[i] in km;
    }
    forall l | l in ls && l.queue == q && from <= l.block <= to
      ensures Decode(v, l) in QueueEvents(ls, v, q, from, to)
    {
      assert l in km;
      var i :| 0 <= i < |km| && km[i] == l;
      assert DecodeAll(v, km)[i] == Decode(v, l);
    }
  }

  lemma {:induction false} ForwardEventMembers(vs: set<Address>, ls: seq<ForwardLog>, pairs: seq<(Address, Address)>,
                                               from: int, to: int)
    ensures forall e :: e in ForwardEvents(vs, ls, pairs, from, to) <==>
              (e.vault, e.queue) in pairs && e.vault in vs &&
              exists l :: l in ls && l.queue == e.queue && from <= l.block <= to && e == Decode(e.vault, l)
  {
    if pairs == [] {
    } else {
      var (v, q) := pairs[0];
      QueueEventMembers(ls, v, q, from, to);
      ForwardEventMembers(vs, ls, pairs[1..], from, to);
      assert forall p :: p in pairs <==> p == pairs[0] || p in pairs[1..];
    }
  }

  lemma {:induction false} OfTicketOfDecoded(v: Address, q: Address, ls: seq<ForwardLog>, k: TicketKey)
    requires forall l :: l in ls ==> l.queue == q
    ensures OfTicket(DecodeAll(v, ls), k) == if k.0 == q then DecodeAll(v, Select(ls, OfId(k.1))) else []
  {
    if ls == [] {
    } else {
      assert ls[0] in ls;
      assert DecodeAll(v, ls)[1..] == DecodeAll(v, ls[1..]);
      OfTicketOfDecoded(v, q, ls[1..], k);
      var d := OfTicket(DecodeAll(v, ls), k);
      if k == (q, ls[0].ticketId) {
        assert Select(ls, OfId(k.1)) == [ls[0]] + Select(ls[1..], OfId(k.1));
        DecodeAllConcat(v, [ls[0]], Select(ls[1..], OfId(k.1)));
        assert DecodeAll(v, [ls[0]]) == [Decode(v, ls[0])];
        assert d == [Decode(v, ls[0])] + OfTicket(DecodeAll(v, ls[1..]), k);
      } else {
        assert d == OfTicket(DecodeAll(v, ls[1..]), k);
      }
    }
  }

  lemma QueueEventsOfTicket(ls: seq<ForwardLog>, v: Address, q: Address, from: int, to: int, k: TicketKey)
    ensures OfTicket(QueueEvents(ls, v, q, from, to), k) ==
            if k.0 == q then DecodeAll(v, Select(KindMajor(QueueLogs(ls, q, from, to)), OfId(k.1))) else []
  {
    var r := QueueLogs(ls, q, from, to);
    SelectMembers(ls, InQueue(q, from, to));
    KindMajorMembers(r);
    OfTicketOfDecoded(v, q, KindMajor(r), k);
  }

  /** A ticket's events in a tick are those of its own queue. */
  lemma {:induction false} ForwardEventsOfTicket(vs: set<Address>, ls: seq<ForwardLog>, pairs: seq<(Address, Address)>,
                                                 from: int, to: int, v: Address, k: TicketKey)
    requires DistinctQueues(pairs)
    requires forall p :: p in pairs && p.1 == k.0 ==> p.0 == v
    ensures OfTicket(ForwardEvents(vs, ls, pairs, from, to), k) ==
            if (v, k.0) in pairs && v in vs then OfTicket(QueueEvents(ls, v, k.0, from, to), k) else []
  {
    if pairs == [] {
    } else {
      var p := pairs[0];
      assert p in pairs && forall p' :: p' in pairs <==> p' == p || p' in pairs[1..];
      ForwardEventsOfTicket(vs, ls, pairs[1..], from, to, v, k);
      var hd := if p.0 in vs then QueueEvents(ls, p.0, p.1, from, to) else [];
      OfTicketConcat(hd, ForwardEvents(vs, ls, pairs[1..], from, to), k);
      QueueEventsOfTicket(ls, p.0, p.1, from, to, k);
      if p.1 == k.0 {
        forall p' | p' in pairs[1..] ensures p' != p {
          var j :| 0 <= j < |pairs[1..]| && pairs[1..][j] == p';
          assert pairs[j + 1] == p';
        }
      }
    }
  }

  lemma KindMajorLeads(v: Address, ls: seq<ForwardLog>)
    ensures Leading(DecodeAll(v, KindMajor(ls)))
  {
    var km := KindMajor(ls);
    var n := |Select(ls, OfKind(CreateRequested))| + |Select(ls, OfKind(RedeemRequested))|;
    SelectMembers(ls, OfKind(CreateRequested));
    SelectMembers(ls, OfKind(RedeemRequested));
    SelectMembers(ls, OfKind(PartialFill));
    SelectMembers(ls, OfKind(Settled));
    SelectMembers(ls, OfKind(Cancelled));
    forall i | 0 <= i < |km| ensures IsRequest(DecodeAll(v, km)[i]) <==> i < n {
      if i < n {
        assert km[i] in Select(ls, OfKind(CreateRequested)) + Select(ls, OfKind(RedeemRequested));
      } else {
        assert km[i] in Select(ls, OfKind(PartialFill)) + Select(ls, OfKind(Settled)) + Select(ls, OfKind(Cancelled));
      }
    }
  }

  lemma QueueVault(pairs: seq<(Address, Address)>, q: Address) returns (v: Address)
    requires DistinctQueues(pairs)
    ensures forall p :: p in pairs && p.1 == q ==> p.0 == v
  {
    if p :| p in pairs && p.1 == q {
      v := p.0;
    } else {
      v := "";
    }
  }

  lemma TicketLeads(vs: set<Address>, ls: seq<ForwardLog>, pairs: seq<(Address, Address)>, from: int, to: int,
                    k: TicketKey)
    requires DistinctQueues(pairs)
    ensures Leading(OfTicket(ForwardEvents(vs, ls, pairs, from, to), k))
  {
    var v := QueueVault(pairs, k.0);
    ForwardEventsOfTicket(vs, ls, pairs, from, to, v, k);
    QueueEventsOfTicket(ls, v, k.0, from, to, k);
    KindMajorSelect(QueueLogs(ls, k.0, from, to), OfId(k.1));
    KindMajorLeads(v, Select(QueueLogs(ls, k.0, from, to), OfId(k.1)));
  }

  /** What the kind-major order and the decoder give every tick, grammar or not. */
  lemma ForwardEventsReplayable(vs: set<Address>, ls: seq<ForwardLog>, pairs: seq<(Address, Address)>, from: int,
                                to: int)
    requires LogsOk(ls) && DistinctQueues(pairs)
    ensures Replayable(ForwardEvents(vs, ls, pairs, from, to))
  {
    var es := ForwardEvents(vs, ls, pairs, from, to);
    forall k ensures Leading(OfTicket(es, k)) {
      TicketLeads(vs, ls, pairs, from, to, k);
    }
    ForwardEventMembers(vs, ls, pairs, from, to);
    forall e | e in es ensures WellFormed(e) {
      var l :| l in ls && e == Decode(e.vault, l);
    }
    forall e, f | e in es && f in es && TicketOf(e) == TicketOf(f) ensures e.vault == f.vault {
      var v := QueueVault(pairs, e.queue);
      assert (e.vault, e.queue) in pairs && (f.vault, f.queue) in pairs;
    }
  }

  // ---------- unique keys ----------

  lemma SameKeySameLog(ls: seq<ForwardLog>, a: ForwardLog, b: ForwardLog)
    requires DistinctLogs(ls) && a in ls && b in ls && LogKeyOf(a) == LogKeyOf(b)
    ensures a == b
  {
    var i :| 0 <= i < |ls| && ls[i] == a;
    var j :| 0 <= j < |ls| && ls[j] == b;
    if i < j {} else if j < i {}
  }

  lemma DistinctConcat(a: seq<ForwardLog>, b: seq<ForwardLog>)
    requires DistinctLogs(a) && DistinctLogs(b)
    requires forall x, y :: x in a && y in b ==> LogKeyOf(x) != LogKeyOf(y)
    ensures DistinctLogs(a + b)
  {
    var c := a + b;
    forall i, j | 0 <= i < j < |c| ensures LogKeyOf(c[i]) != LogKeyOf(c[j]) {
      if i < |a| && |a| <= j {
        assert c[i] in a && c[j] in b;
      }
    }
  }

  lemma {:induction false} SelectDistinct(ls: seq<ForwardLog>, s: Selector)
    requires DistinctLogs(ls)
    ensures DistinctLogs(Select(ls, s))
  {
    if ls == [] {
    } else {
      SelectDistinct(ls[1..], s);
      SelectMembers(ls[1..], s);
      var hd := if Matches(ls[0], s) then [ls[0]] else [];
      forall x, y | x in hd && y in Select(ls[1..], s) ensures LogKeyOf(x) != LogKeyOf(y) {
        var j :| 0 <= j < |ls[1..]| && ls[1..][j] == y;
        assert ls[j + 1] == y;
      }
      DistinctConcat(hd, Select(ls[1..], s));
    }
  }

  /** Adding the logs of one more kind keeps keys distinct. */
  lemma DistinctKinds(ls: seq<ForwardLog>, a: seq<ForwardLog>, k: EventKind)
    requires DistinctLogs(ls) && DistinctLogs(a)
    requires forall l :: l in a ==> l in ls && KindOf(l.args) != k
    ensures DistinctLogs(a + Select(ls, OfKind(k)))
    ensures forall l :: l in a + Select(ls, OfKind(k)) ==> l in a || (l in ls && KindOf(l.args) == k)
  {
    SelectDistinct(ls, OfKind(k));
    SelectMembers(ls, OfKind(k));
    forall x, y | x in a && y in Select(ls, OfKind(k)) ensures LogKeyOf(x) != LogKeyOf(y) {
      if LogKeyOf(x) == LogKeyOf(y) { SameKeySameLog(ls, x, y); }
    }
    DistinctConcat(a, Select(ls, OfKind(k)));
  }

  lemma KindMajorDistinct(ls: seq<ForwardLog>)
    requires DistinctLogs(ls)
    ensures DistinctLogs(KindMajor(ls))
  {
    SelectDistinct(ls, OfKind(CreateRequested));
    SelectMembers(ls, OfKind(CreateRequested));
    var a := Select(ls, OfKind(CreateRequested));
    DistinctKinds(ls, a, RedeemRequested);
    a := a + Select(ls, OfKind(RedeemRequested));
    DistinctKinds(ls, a, PartialFill);
    a := a + Select(ls, OfKind(PartialFill));
    DistinctKinds(ls, a, Settled);
    a := a + Select(ls, OfKind(Settled));
    DistinctKinds(ls, a, Cancelled);
  }

  lemma DecodedDistinct(v: Address, ls: seq<ForwardLog>)
    requires DistinctLogs(ls)
    ensures DistinctKeys(DecodeAll(v, ls))
  {
  }

  lemma DecodedMembers(v: Address, ls: seq<ForwardLog>, e: TicketEvent)
    ensures e in DecodeAll(v, ls) <==> exists l :: l in ls && e == Decode(v, l)
  {
    if l :| l in ls && e == Decode(v, l) {
      var i :| 0 <= i < |ls| && ls[i] == l;
      assert DecodeAll(v, ls)[i] == e;
    }
  }

  lemma KindMajorSameEvents(v: Address, ls: seq<ForwardLog>, e: TicketEvent)
    ensures e in DecodeAll(v, KindMajor(ls)) <==> e in DecodeAll(v, ls)
  {
    KindMajorMembers(ls);
    DecodedMembers(v, KindMajor(ls), e);
    DecodedMembers(v, ls, e);
  }

  lemma KindMajorSameTicket(v: Address, q: Address, ls: seq<ForwardLog>, k: TicketKey)
    requires forall l :: l in ls ==> l.queue == q
    requires Fragment(Select(ls, OfId(k.1)))
    ensures OfTicket(DecodeAll(v, KindMajor(ls)), k) == OfTicket(DecodeAll(v, ls), k)
  {
    KindMajorMembers(ls);
    OfTicketOfDecoded(v, q, KindMajor(ls), k);
    OfTicketOfDecoded(v, q, ls, k);
    KindMajorKeepsTicketOrder(ls, k.1);
  }

  /** Reading kind by kind costs nothing: for a queue whose tickets obey the grammar in this range, all
      three tables end as if its logs had been applied in chain order. */
  lemma KindMajorKeepsTables(t: ForwardTables, v: Address, q: Address, ls: seq<ForwardLog>)
    requires DistinctLogs(ls) && forall l :: l in ls ==> l.queue == q
    requires forall id: nat :: Fragment(Select(ls, OfId(id)))
    ensures ApplyForwardAll(t, DecodeAll(v, KindMajor(ls))) == ApplyForwardAll(t, DecodeAll(v, ls))
  {
    var a, b := DecodeAll(v, KindMajor(ls)), DecodeAll(v, ls);
    KindMajorDistinct(ls);
    DecodedDistinct(v, KindMajor(ls));
    DecodedDistinct(v, ls);
    forall k ensures OfTicket(a, k) == OfTicket(b, k) {
      KindMajorSameTicket(v, q, ls, k);
    }
    forall e ensures e in a <==> e in b {
      KindMajorSameEvents(v, ls, e);
    }
    OrderWithinTickets(t, a, b);
  }

  lemma QueueEventsDistinct(ls: seq<ForwardLog>, v: Address, q: Address, from: int, to: int)
    requires DistinctLogs(ls)
    ensures DistinctKeys(QueueEvents(ls, v, q, from, to))
  {
    SelectDistinct(ls, InQueue(q, from, to));
    KindMajorDistinct(QueueLogs(ls, q, from, to));
  }

  predicate FromLog(ls: seq<ForwardLog>, e: TicketEvent) {
    exists l :: l in ls && l.queue == e.queue && e == Decode(e.vault, l)
  }

  lemma QueuesShareNoKey(ls: seq<ForwardLog>, e: TicketEvent, f: TicketEvent)
    requires DistinctLogs(ls) && FromLog(ls, e) && FromLog(ls, f) && e.queue != f.queue
    ensures EventKey(e) != EventKey(f)
  {
    var x :| x in ls && x.queue == e.queue && e == Decode(e.vault, x);
    var y :| y in ls && y.queue == f.queue && f == Decode(f.vault, y);
    if LogKeyOf(x) == LogKeyOf(y) { SameKeySameLog(ls, x, y); }
  }

  lemma OtherQueuesLater(pairs: seq<(Address, Address)>, v: Address, q: Address)
    requires pairs != [] && DistinctQueues(pairs) && (v, q) in pairs[1..]
    ensures q != pairs[0].1
  {
    var n :| 0 <= n < |pairs[1..]| && pairs[1..][n] == (v, q);
    assert pairs[n + 1].1 == q;
  }

  lemma DistinctEventsConcat(a: seq<TicketEvent>, b: seq<TicketEvent>)
    requires DistinctKeys(a) && DistinctKeys(b)
    requires forall e, f :: e in a && f in b ==> EventKey(e) != EventKey(f)
    ensures DistinctKeys(a + b)
  {
    var es := a + b;
    forall i, j | 0 <= i < j < |es| ensures EventKey(es[i]) != EventKey(es[j]) {
      if i < |a| && |a| <= j {
        assert es[i] in a && es[j] in b;
      }
    }
  }

  /** In a tick no two events share a key. */
  lemma {:induction false} ForwardEventsDistinct(vs: set<Address>, ls: seq<ForwardLog>, pairs: seq<(Address, Address)>,
                                                 from: int, to: int)
    requires DistinctLogs(ls) && DistinctQueues(pairs)
    ensures DistinctKeys(ForwardEvents(vs, ls, pairs, from, to))
  {
    if pairs == [] {
    } else {
      var (v, q) := pairs[0];
      var a := if v in vs then QueueEvents(ls, v, q, from, to) else [];
      var b := ForwardEvents(vs, ls, pairs[1..], from, to);
      QueueEventsDistinct(ls, v, q, from, to);
      ForwardEventsDistinct(vs, ls, pairs[1..], from, to);
      QueueEventMembers(ls, v, q, from, to);
      ForwardEventMembers(vs, ls, pairs[1..], from, to);
      forall e, f | e in a && f in b ensures EventKey(e) != EventKey(f) {
        OtherQueuesLater(pairs, f.vault, f.queue);
        QueuesShareNoKey(ls, e, f);
      }
      DistinctEventsConcat(a, b);
    }
  }

  // ---------- crash absorption, tick by tick ----------

  ghost predicate SubPairs(a: TickEnv, b: TickEnv) { forall p :: p in a.pairs ==> p in b.pairs }

  /** The events a tick over a range may apply. */
  function TickEvents(chain: Chain, db: Db, env: TickEnv, from: int, to: int): seq<TicketEvent> {
    ForwardEvents(VaultsAfter(db, chain, from, to), Seen(chain.forward, env.cutoffs), env.pairs, from, to)
  }

  /** What a tick with work did to the tables: the events it applied, whether it got to its end. */
  ghost predicate Effect(startBlock: nat, chain: Chain, db: Db, env: TickEnv, done: seq<TicketEvent>, complete: bool,
                         db': Db)
  {
    var from := From(startBlock, db, env);
    var to := To(from, env.head);
    && db'.forward == ApplyForwardAll(db.forward, done)
    && (forall e :: e in done ==> e in TickEvents(chain, db, env, from, to))
    && db.baskets.Keys <= db'.baskets.Keys <= VaultsAfter(db, chain, from, to)
    && (complete ==>
         done == TickEvents(chain, db, env, from, to) && db'.baskets.Keys == VaultsAfter(db, chain, from, to))
    && db'.checkpoint == if complete then Some(to) else db.checkpoint
  }

  lemma PrefixForward(db: Db, ws: seq<Write>, n: nat, es: seq<TicketEvent>)
    requires n <= |ws| && EventsIn(ws) == es
    ensures var done := EventsIn(ws[..n]);
            && ApplyWrites(db, ws[..n]).forward == ApplyForwardAll(db.forward, done)
            && (forall e :: e in done ==> e in es) && (n == |ws| ==> done == es)
  {
    assert ws == ws[..n] + ws[n..] && (n == |ws| ==> ws[..n] == ws);
    EventsInConcat(ws[..n], ws[n..]);
    ForwardTablesOf(db, ws[..n]);
  }

  lemma PrefixBaskets(chain: Chain, db: Db, ws: seq<Write>, n: nat, from: int, to: int)
    requires n <= |ws|
    requires forall w :: w in ws && w.UpsertBasket? ==> w.log in chain.creations && from <= w.log.block <= to
    requires forall c :: c in chain.creations && from <= c.block <= to ==> UpsertBasket(c) in ws
    ensures var after := ApplyWrites(db, ws[..n]).baskets.Keys;
            db.baskets.Keys <= after <= VaultsAfter(db, chain, from, to) &&
              (n == |ws| ==> after == VaultsAfter(db, chain, from, to))
  {
    BasketsOf(db, ws[..n]);
    assert forall w :: w in ws[..n] ==> w in ws;
    if n == |ws| {
      assert ws[..n] == ws;
      forall c | c in chain.creations && from <= c.block <= to ensures c.vault in ApplyWrites(db, ws).baskets.Keys {
        assert UpsertBasket(c) in ws;
      }
    }
  }

  lemma PlanHasBaskets(chain: Chain, env: TickEnv, db: Db, from: int, to: int)
    ensures forall c :: c in chain.creations && from <= c.block <= to ==>
              UpsertBasket(c) in Plan(chain, env, db, from, to)
  {
    BasketWriteMembers(chain.creations, from, to);
    forall c | c in chain.creations && from <= c.block <= to ensures UpsertBasket(c) in Plan(chain, env, db, from, to) {
      assert UpsertBasket(c) in BasketWrites(chain.creations, from, to);
    }
  }

  lemma TickEffects(startBlock: nat, chain: Chain, db: Db, a: Attempt) returns (done: seq<TicketEvent>)
    requires HasWork(startBlock, db.checkpoint, a.env)
    ensures Effect(startBlock, chain, db, a.env, done, Completes(startBlock, chain, db, a),
                   Tick(startBlock, chain, db, a))
  {
    TickCheckpoint(startBlock, chain, db, a);
    var from := From(startBlock, db, a.env);
    var to := To(from, a.env.head);
    var ws := Plan(chain, a.env, db, from, to);
    var n := TickIsPrefix(startBlock, chain, db, a);
    PlanShape(chain, a.env, db, from, to);
    PlanHasBaskets(chain, a.env, db, from, to);
    PrefixForward(db, ws, n, TickEvents(chain, db, a.env, from, to));
    PrefixBaskets(chain, db, ws, n, from, to);
    done := EventsIn(ws[..n]);
  }

  /** What a tick did, with or without work. */
  lemma TickDid(startBlock: nat, chain: Chain, db: Db, a: Attempt) returns (done: seq<TicketEvent>, complete: bool)
    ensures var db' := Tick(startBlock, chain, db, a);
            if HasWork(startBlock, db.checkpoint, a.env) then Effect(startBlock, chain, db, a.env, done, complete, db')
              else db' == db
    ensures complete == Completes(startBlock, chain, db, a)
  {
    done, complete := [], false;
    if HasWork(startBlock, db.checkpoint, a.env) {
      done := TickEffects(startBlock, chain, db, a);
      complete := Completes(startBlock, chain, db, a);
    } else {
      IdleTick(startBlock, chain, db, a);
    }
  }

  /** Vaults a retried tick sees do not depend on how far earlier attempts over its range came. */
  lemma VaultsAfterRetry(db: Db, db': Db, chain: Chain, from: int, mid: int, to: int)
    requires mid <= to
    requires db.baskets.Keys <= db'.baskets.Keys <= VaultsAfter(db, chain, from, mid)
    ensures VaultsAfter(db', chain, from, to) == VaultsAfter(db, chain, from, to)
  {
  }

  /** Two completed ticks over one range, one of them after leftovers of it, write the same. */
  lemma LeftoversAbsorbed(startBlock: nat, chain: Chain, env: TickEnv, db: Db, dirty: Db, junk: seq<TicketEvent>,
                          alone: seq<TicketEvent>, after: Db, again: seq<TicketEvent>, dirtyAfter: Db)
    requires LogsOk(chain.forward) && DistinctQueues(env.pairs) && dirty.checkpoint == db.checkpoint
    requires Effect(startBlock, chain, db, env, alone, true, after)
    requires Effect(startBlock, chain, dirty, env, again, true, dirtyAfter)
    requires var from := From(startBlock, db, env);
             var to := To(from, env.head);
             && db.baskets.Keys <= dirty.baskets.Keys <= VaultsAfter(db, chain, from, to)
             && dirty.forward == ApplyForwardAll(db.forward, junk)
             && forall e :: e in junk ==> Covered(e, TickEvents(chain, db, env, from, to))
    ensures dirtyAfter.forward == after.forward
  {
    var from := From(startBlock, db, env);
    var to := To(from, env.head);
    VaultsAfterRetry(db, dirty, chain, from, to, to);
    LogsOkAlike(chain.forward, Seen(chain.forward, env.cutoffs));
    ForwardEventsReplayable(VaultsAfter(db, chain, from, to), Seen(chain.forward, env.cutoffs), env.pairs, from, to);
    CrashAbsorption(db.forward, junk, alone);
  }

  /** Any number of aborted ticks, then a completed one: the ticket, event and activity rows are
      those of the completed tick alone, whatever cutoffs the aborted ones read. No ticket grammar is
      needed, and the database before may hold anything. */
  lemma {:induction false} CrashAbsorptionOfTicks(startBlock: nat, chain: Chain, db: Db, aborted: seq<Attempt>,
                                                  last: Attempt)
    requires LogsOk(chain.forward) && DistinctQueues(last.env.pairs)
    requires startBlock > 0 || db.checkpoint.Some?
    requires Completes(startBlock, chain, db, last)
    requires Completes(startBlock, chain, Run(startBlock, chain, db, aborted), last)
    requires forall i :: 0 <= i < |aborted| ==>
               && aborted[i].env.head <= last.env.head && SubPairs(aborted[i].env, last.env)
               && !Completes(startBlock, chain, Run(startBlock, chain, db, aborted[..i]), aborted[i])
    ensures Run(startBlock, chain, db, aborted + [last]).forward == Tick(startBlock, chain, db, last).forward
  {
    var junk := AbortedJunk(startBlock, chain, db, aborted, last);
    var dirty := Run(startBlock, chain, db, aborted);
    var alone := TickEffects(startBlock, chain, db, last);
    var again := TickEffects(startBlock, chain, dirty, last);
    LeftoversAbsorbed(startBlock, chain, last.env, db, dirty, junk, alone, Tick(startBlock, chain, db, last),
                      again, Tick(startBlock, chain, dirty, last));
    assert (aborted + [last])[..|aborted|] == aborted;
  }

  /** A later attempt over the same start, with at least the head and the queues, plans at least
      the same events, up to the cutoffs it reads. */
  lemma LaterPlanCovers(db: Db, mid: Db, chain: Chain, from: int, to': int, to: int, a: TickEnv, b: TickEnv)
    requires to' <= to && SubPairs(a, b)
    requires db.baskets.Keys <= mid.baskets.Keys <= VaultsAfter(db, chain, from, to)
    ensures VaultsAfter(mid, chain, from, to') <= VaultsAfter(db, chain, from, to)
    ensures forall e :: e in TickEvents(chain, mid, a, from, to') ==> Covered(e, TickEvents(chain, db, b, from, to))
  {
    forall e | e in TickEvents(chain, mid, a, from, to') ensures Covered(e, TickEvents(chain, db, b, from, to)) {
      ForwardEventMembers(VaultsAfter(mid, chain, from, to'), Seen(chain.forward, a.cutoffs), a.pairs, from, to');
      var l :| l in Seen(chain.forward, a.cutoffs) && l.queue == e.queue && from <= l.block <= to' &&
        e == Decode(e.vault, l);
      SeenAgain(chain.forward, a.cutoffs, b.cutoffs, VaultsAfter(db, chain, from, to), b.pairs, from, to, e, l);
    }
  }

  /** An event decoded from a log once is decoded from it again, with the cutoff read then. */
  lemma SeenAgain(ls: seq<ForwardLog>, before: map<LogKey, nat>, now: map<LogKey, nat>, vs: set<Address>,
                  pairs: seq<(Address, Address)>, from: int, to: int, e: TicketEvent, l: ForwardLog)
    requires l in Seen(ls, before) && l.queue == e.queue && from <= l.block <= to && e == Decode(e.vault, l)
    requires (e.vault, e.queue) in pairs && e.vault in vs
    ensures Covered(e, ForwardEvents(vs, Seen(ls, now), pairs, from, to))
  {
    var i :| 0 <= i < |ls| && Seen(ls, before)[i] == l;
    var again := Seen(ls, now)[i];
    ForwardEventMembers(vs, Seen(ls, now), pairs, from, to);
    var f := Decode(e.vault, again);
    assert again in Seen(ls, now) && f.queue == e.queue && f.vault == e.vault;
    assert f in ForwardEvents(vs, Seen(ls, now), pairs, from, to);
    DecodeAlike(e.vault, l, again);
  }

  /** What one aborted attempt leaves behind, seen from the completed one. */
  lemma AbortedStep(startBlock: nat, chain: Chain, db: Db, mid: Db, a: TickEnv, last: TickEnv, done: seq<TicketEvent>,
                    db': Db)
    requires startBlock > 0 || db.checkpoint.Some?
    requires HasWork(startBlock, db.checkpoint, last)
    requires a.head <= last.head && SubPairs(a, last) && mid.checkpoint == db.checkpoint
    requires HasWork(startBlock, mid.checkpoint, a) && Effect(startBlock, chain, mid, a, done, false, db')
    requires var from := From(startBlock, db, last);
             db.baskets.Keys <= mid.baskets.Keys <= VaultsAfter(db, chain, from, To(from, last.head))
    ensures var from := From(startBlock, db, last);
            var to := To(from, last.head);
            && db'.checkpoint == db.checkpoint
            && db.baskets.Keys <= db'.baskets.Keys <= VaultsAfter(db, chain, from, to)
            && db'.forward == ApplyForwardAll(mid.forward, done)
            && forall e :: e in done ==> Covered(e, TickEvents(chain, db, last, from, to))
  {
    var from := From(startBlock, db, last);
    LaterPlanCovers(db, mid, chain, from, To(from, a.head), To(from, last.head), a, last);
  }

  lemma {:induction false} AbortedJunk(startBlock: nat, chain: Chain, db: Db, aborted: seq<Attempt>, last: Attempt)
    returns (junk: seq<TicketEvent>)
    requires startBlock > 0 || db.checkpoint.Some?
    requires HasWork(startBlock, db.checkpoint, last.env)
    requires forall i :: 0 <= i < |aborted| ==>
               && aborted[i].env.head <= last.env.head && SubPairs(aborted[i].env, last.env)
               && !Completes(startBlock, chain, Run(startBlock, chain, db, aborted[..i]), aborted[i])
    ensures var from := From(startBlock, db, last.env);
            var to := To(from, last.env.head);
            var dirty := Run(startBlock, chain, db, aborted);
            var es := TickEvents(chain, db, last.env, from, to);
            && dirty.checkpoint == db.checkpoint
            && db.baskets.Keys <= dirty.baskets.Keys <= VaultsAfter(db, chain, from, to)
            && dirty.forward == ApplyForwardAll(db.forward, junk)
            && forall e :: e in junk ==> Covered(e, es)
    decreases |aborted|
  {
    if aborted == [] {
      junk := [];
    } else {
      var init, a := aborted[..|aborted| - 1], aborted[|aborted| - 1];
      forall i | 0 <= i < |init| ensures init[..i] == aborted[..i] {}
      junk := AbortedJunk(startBlock, chain, db, init, last);
      var mid := Run(startBlock, chain, db, init);
      var done, complete := TickDid(startBlock, chain, mid, a);
      if HasWork(startBlock, mid.checkpoint, a.env) {
        AbortedStep(startBlock, chain, db, mid, a.env, last.env, done, Tick(startBlock, chain, mid, a));
        ApplyForwardAllConcat(db.forward, junk, done);
        junk := junk + done;
      }
    }
  }
}
