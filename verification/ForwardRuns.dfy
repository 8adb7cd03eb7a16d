/** Every run of completed and aborted ticks from an empty database: what the forward tables hold at
    a checkpoint is the meaning of the chain up to it. */
module ForwardRuns {
  import opened Options
  import opened IndexerTypes
  import opened FillCutoffs
  import opened ForwardTickets
  import opened ForwardHistory
  import opened TickPlan
  import opened ForwardReadModel

  /** The logs of one ticket in a block range, in chain order. */
  function Hist(ls: seq<ForwardLog>, q: Address, id: nat, from: int, to: int): seq<ForwardLog> {
    Select(ls, InTicket(q, id, from, to))
  }

  /** All logs of one ticket. */
  function AllOf(ls: seq<ForwardLog>, q: Address, id: nat): seq<ForwardLog> {
    Select(ls, OfTicketId(q, id))
  }

  lemma HistOfAll(ls: seq<ForwardLog>, q: Address, id: nat, from: int, to: int)
    ensures Hist(ls, q, id, from, to) == Select(AllOf(ls, q, id), InBlocks(from, to))
  {
    SelectTwice(ls, OfTicketId(q, id), InBlocks(from, to),
                InTicket(q, id, from, to));
  }

  /** A queue known since its first event: its vault `v` was created first, every tick that can see
      one of its logs lists it, and its tickets obey the grammar. */
  ghost predicate Tracked(startBlock: nat, chain: Chain, atts: seq<Attempt>, v: Address, q: Address,
                          birth: CreationLog)
  {
    && birth in chain.creations && birth.vault == v && birth.block >= startBlock
    && (forall l :: l in chain.forward && l.queue == q ==> birth.block <= l.block)
    && (forall id: nat :: Grammar(AllOf(chain.forward, q, id)))
    && (forall a :: a in atts ==> Lists(chain, a.env, v, q))
  }

  ghost predicate Lists(chain: Chain, env: TickEnv, v: Address, q: Address) {
    && DistinctQueues(env.pairs)
    && (forall p :: p in env.pairs && p.1 == q ==> p.0 == v)
    && ((exists l :: l in chain.forward && l.queue == q && l.block <= env.head) ==> (v, q) in env.pairs)
  }

  predicate GrowingHead(atts: seq<Attempt>) {
    forall i, j :: 0 <= i < j < |atts| ==> atts[i].env.head <= atts[j].env.head
  }

  // ---------- pieces of a history ----------

  lemma HistMembers(ls: seq<ForwardLog>, q: Address, id: nat, from: int, to: int)
    ensures forall l :: l in Hist(ls, q, id, from, to) <==>
              l in ls && l.queue == q && l.ticketId == id && from <= l.block <= to
  {
    SelectMembers(ls, InTicket(q, id, from, to));
  }

  lemma HistNone(ls: seq<ForwardLog>, q: Address, id: nat, from: int, to: int)
    requires forall l :: l in ls && l.queue == q ==> !(from <= l.block <= to)
    ensures Hist(ls, q, id, from, to) == []
  {
    SelectNone(ls, InTicket(q, id, from, to));
  }

  lemma HistSplits(ls: seq<ForwardLog>, q: Address, id: nat, from: int, mid: int, to: int)
    requires Chronological(ls) && from <= mid + 1 && mid <= to
    ensures Hist(ls, q, id, from, to) == Hist(ls, q, id, from, mid) + Hist(ls, q, id, mid + 1, to)
  {
    SelectChronological(ls, OfTicketId(q, id));
    RangesConcat(AllOf(ls, q, id), from, mid, to);
    HistOfAll(ls, q, id, from, to);
    HistOfAll(ls, q, id, from, mid);
    HistOfAll(ls, q, id, mid + 1, to);
  }

  lemma GrammarPieces(a: seq<ForwardLog>, b: seq<ForwardLog>, c: seq<ForwardLog>)
    requires Grammar(a + b + c)
    ensures Grammar(a) && Grammar(a + b) && Fragment(b)
  {
    PrefixGrammar(a + b, c);
    PrefixGrammar(a, b);
    FragmentOfPiece(a, b, c);
  }

  /** A ticket's logs up to a block obey the grammar, and so does any later piece of them. */
  lemma HistGrammar(ls: seq<ForwardLog>, q: Address, id: nat, c: int, to: int)
    requires Chronological(ls) && -1 <= c <= to
    requires Grammar(AllOf(ls, q, id))
    ensures Grammar(Hist(ls, q, id, 0, to)) && Grammar(Hist(ls, q, id, 0, c)) && Fragment(Hist(ls, q, id, c + 1, to))
    ensures Hist(ls, q, id, 0, to) == Hist(ls, q, id, 0, c) + Hist(ls, q, id, c + 1, to)
  {
    HistSplits(ls, q, id, 0, c, to);
    var last := LastBlockOf(AllOf(ls, q, id), to);
    HistSplits(ls, q, id, 0, to, last);
    HistOfAll(ls, q, id, 0, last);
    SelectAll(AllOf(ls, q, id), InBlocks(0, last));
    GrammarPieces(Hist(ls, q, id, 0, c), Hist(ls, q, id, c + 1, to), Hist(ls, q, id, to + 1, last));
  }

  function LastBlockOf(h: seq<ForwardLog>, at: int): (b: int)
    ensures b >= at && forall l :: l in h ==> l.block <= b
  {
    if h == [] then at
    else
      var b := LastBlockOf(h[1..], at);
      assert forall l :: l in h ==> l == h[0] || l in h[1..];
      if h[0].block > b then h[0].block else b
  }

  lemma PrefixGrammar(a: seq<ForwardLog>, b: seq<ForwardLog>)
    requires Grammar(a + b)
    ensures Grammar(a)
  {
    forall i | 0 <= i < |a| ensures (a + b)[i] == a[i] {}
  }

  // ---------- one queue through one tick ----------

  /** One tick as seen from one tracked queue: `c` is the checkpoint, `m` the highest block earlier
      attempts have reached for, `to` the one this tick reaches for. */
  datatype Window = Window(ls: seq<ForwardLog>, pairs: seq<(Address, Address)>, vs: set<Address>,
                           v: Address, q: Address, c: int, m: int, to: int)
  {
    function Events(): seq<TicketEvent> { ForwardEvents(vs, ls, pairs, c + 1, to) }
    function Past(id: nat): seq<ForwardLog> { Hist(ls, q, id, 0, c) }
    function Tried(id: nat): seq<ForwardLog> { Hist(ls, q, id, c + 1, m) }
    function Part(id: nat): seq<ForwardLog> { Hist(ls, q, id, c + 1, to) }
    function Whole(id: nat): seq<ForwardLog> { Hist(ls, q, id, 0, to) }

    ghost predicate Ok() {
      && LogsOk(ls) && -1 <= c <= m <= to
      && (forall id: nat :: Grammar(AllOf(ls, q, id)))
      && DistinctQueues(pairs) && (forall p :: p in pairs && p.1 == q ==> p.0 == v)
      && (forall l :: l in ls && l.queue == q && l.block <= to ==> (v, q) in pairs && v in vs)
    }
  }

  lemma KindMajorHist(ls: seq<ForwardLog>, q: Address, id: nat, from: int, to: int)
    requires Fragment(Hist(ls, q, id, from, to))
    ensures Select(KindMajor(QueueLogs(ls, q, from, to)), OfId(id)) == Hist(ls, q, id, from, to)
  {
    SelectTwice(ls, InQueue(q, from, to), OfId(id), InTicket(q, id, from, to));
    KindMajorKeepsTicketOrder(QueueLogs(ls, q, from, to), id);
  }

  lemma ListedTicketEvents(ls: seq<ForwardLog>, v: Address, q: Address, c: int, to: int, id: nat)
    requires LogsOk(ls) && -1 <= c <= to && Grammar(AllOf(ls, q, id))
    ensures OfTicket(QueueEvents(ls, v, q, c + 1, to), (q, id)) == DecodeAll(v, Hist(ls, q, id, c + 1, to))
  {
    QueueEventsOfTicket(ls, v, q, c + 1, to, (q, id));
    HistGrammar(ls, q, id, c, to);
    KindMajorHist(ls, q, id, c + 1, to);
  }

  /** The events a tick has for a ticket are the ticket's logs of its range, in chain order. */
  lemma TickEventsOfTicket(w: Window, id: nat)
    requires w.Ok()
    ensures OfTicket(w.Events(), (w.q, id)) == DecodeAll(w.v, w.Part(id))
  {
    ForwardEventsOfTicket(w.vs, w.ls, w.pairs, w.c + 1, w.to, w.v, (w.q, id));
    assert Grammar(AllOf(w.ls, w.q, id));
    if (w.v, w.q) in w.pairs && w.v in w.vs {
      ListedTicketEvents(w.ls, w.v, w.q, w.c, w.to, id);
    } else {
      HistNone(w.ls, w.q, id, w.c + 1, w.to);
    }
  }

  /** The row after part of a grammatical history names the requester. */
  lemma RequesterOf(v: Address, past: seq<ForwardLog>, pre: seq<ForwardLog>)
    requires Grammar(past + pre) && Grammar(past)
    ensures var row := FoldTicket(FoldTicket(None, DecodeAll(v, past)), DecodeAll(v, pre));
            if past + pre == [] then row == None else row.Some? && row.value.owner == (past + pre)[0].args.owner
  {
    DecodeAllConcat(v, past, pre);
    FoldTicketConcat(None, DecodeAll(v, past), DecodeAll(v, pre));
    FoldIsMeaning(v, past + pre);
  }

  /** Whatever a ticket's row was left like, each event of the range finds the requester in it. */
  lemma RequesterKnown(v: Address, past: seq<ForwardLog>, part: seq<ForwardLog>, dirty: Option<TicketRow>, j: nat)
    requires Grammar(past + part) && Grammar(past) && j < |part|
    requires Leftover(FoldTicket(None, DecodeAll(v, past)), dirty, DecodeAll(v, part))
    ensures OwnerFor(FoldTicket(dirty, DecodeAll(v, part)[..j]), Decode(v, part[j])) == (past + part)[0].args.owner
  {
    var h := past + part;
    var es := DecodeAll(v, part);
    assert h[|past| + j] == part[j];
    if j == 0 {
      assert es[..0] == [];
      FoldIsMeaning(v, past);
    } else {
      var pre := part[..j];
      assert es[..j] == DecodeAll(v, pre) && es[..j][0] == es[0];
      LeftoverAbsorbed(FoldTicket(None, DecodeAll(v, past)), dirty, es[..j]);
      assert h == (past + pre) + part[j..];
      PrefixGrammar(past + pre, part[j..]);
      RequesterOf(v, past, pre);
    }
  }

  // ---------- the invariant ----------

  /** The ticket rows at checkpoint `c` when no attempt has reached beyond block `m`. */
  ghost predicate TicketFits(ls: seq<ForwardLog>, t: ForwardTables, v: Address, q: Address, c: int, m: int, id: nat) {
    Leftover(FoldTicket(None, DecodeAll(v, Hist(ls, q, id, 0, c))), Lookup(t.tickets, (q, id)),
             DecodeAll(v, Hist(ls, q, id, c + 1, m)))
  }

  /** Event and activity rows of a committed log; the latter names the one who opened the ticket. */
  ghost predicate LogFits(ls: seq<ForwardLog>, t: ForwardTables, v: Address, q: Address, c: int, l: ForwardLog) {
    var h := Hist(ls, q, l.ticketId, 0, c);
    && h != [] && IsRequestLog(h[0])
    && Lookup(t.events, LogKeyOf(l)) == Some(EventRowOf(Decode(v, l)))
    && Lookup(t.activity, LogKeyOf(l)) == Some(ActivityRowOf(Decode(v, l), h[0].args.owner))
  }

  /** A log of the queue at or below block `m` has this key. */
  ghost predicate Justified(ls: seq<ForwardLog>, q: Address, m: int, key: LogKey) {
    exists l :: l in ls && l.queue == q && l.block <= m && key == LogKeyOf(l)
  }

  ghost predicate Fits(ls: seq<ForwardLog>, t: ForwardTables, v: Address, q: Address, c: int, m: int) {
    && (forall id: nat :: TicketFits(ls, t, v, q, c, m, id))
    && (forall l :: l in ls && l.queue == q && l.block <= c ==> LogFits(ls, t, v, q, c, l))
    && (forall key :: key in t.events && t.events[key].queue == q ==> Justified(ls, q, m, key))
  }

  lemma LeftoverExtends(clean: Option<TicketRow>, dirty: Option<TicketRow>, es: seq<TicketEvent>,
                        more: seq<TicketEvent>)
    requires Leftover(clean, dirty, es)
    ensures Leftover(clean, dirty, es + more)
  {
    if es != [] { assert (es + more)[0] == es[0]; }
  }

  lemma FragmentEvents(v: Address, h: seq<ForwardLog>)
    requires Fragment(h) && forall l :: l in h && IsRequestLog(l) ==> l.args.owner != ""
    ensures var es := DecodeAll(v, h);
            && (forall e :: e in es ==> WellFormed(e) && e.vault == es[0].vault)
            && (forall e :: e in es && IsRequest(e) ==> IsRequest(es[0]))
  {
    var es := DecodeAll(v, h);
    forall e | e in es ensures WellFormed(e) && e.vault == es[0].vault && (IsRequest(e) ==> IsRequest(es[0])) {
      var i :| 0 <= i < |es| && es[i] == e;
      assert h[i] in h;
    }
  }

  /** Reaching further keeps a row a leftover. */
  lemma TicketReach(w: Window, t: ForwardTables, id: nat)
    requires w.Ok() && TicketFits(w.ls, t, w.v, w.q, w.c, w.m, id)
    ensures TicketFits(w.ls, t, w.v, w.q, w.c, w.to, id)
  {
    HistSplits(w.ls, w.q, id, w.c + 1, w.m, w.to);
    DecodeAllConcat(w.v, w.Tried(id), Hist(w.ls, w.q, id, w.m + 1, w.to));
    LeftoverExtends(FoldTicket(None, DecodeAll(w.v, w.Past(id))), Lookup(t.tickets, (w.q, id)),
                    DecodeAll(w.v, w.Tried(id)), DecodeAll(w.v, Hist(w.ls, w.q, id, w.m + 1, w.to)));
  }

  /** Some of a range's events, in any order, keep every ticket a leftover. */
  lemma TicketJunk(w: Window, t: ForwardTables, done: seq<TicketEvent>, id: nat)
    requires w.Ok() && TicketFits(w.ls, t, w.v, w.q, w.c, w.m, id)
    requires forall e :: e in done ==> e in w.Events()
    ensures TicketFits(w.ls, ApplyForwardAll(t, done), w.v, w.q, w.c, w.to, id)
  {
    var k := (w.q, id);
    TicketReach(w, t, id);
    TickEventsOfTicket(w, id);
    HistGrammar(w.ls, w.q, id, w.c, w.to);
    HistMembers(w.ls, w.q, id, w.c + 1, w.to);
    FragmentEvents(w.v, w.Part(id));
    TicketLocality(t, done, k);
    OfTicketMembers(done, k);
    OfTicketMembers(w.Events(), k);
    forall e | e in OfTicket(done, k) ensures Covered(e, DecodeAll(w.v, w.Part(id))) {
      assert SameButCutoff(e, e);
    }
    LeftoverGrows(FoldTicket(None, DecodeAll(w.v, w.Past(id))), Lookup(t.tickets, k), DecodeAll(w.v, w.Part(id)),
                  OfTicket(done, k));
  }

  lemma EventOfLog(w: Window, e: TicketEvent) returns (x: ForwardLog)
    requires w.Ok() && e in w.Events()
    ensures x in w.ls && x.queue == e.queue && w.c + 1 <= x.block <= w.to && e == Decode(e.vault, x)
    ensures EventKey(e) == LogKeyOf(x)
  {
    ForwardEventMembers(w.vs, w.ls, w.pairs, w.c + 1, w.to);
    x :| x in w.ls && x.queue == e.queue && w.c + 1 <= x.block <= w.to && e == Decode(e.vault, x);
  }

  /** Events of later blocks leave the rows of committed logs alone. */
  lemma CommittedRowsKept(w: Window, t: ForwardTables, done: seq<TicketEvent>, l: ForwardLog)
    requires w.Ok() && l in w.ls && l.block <= w.c
    requires forall e :: e in done ==> e in w.Events()
    ensures Lookup(ApplyForwardAll(t, done).events, LogKeyOf(l)) == Lookup(t.events, LogKeyOf(l))
    ensures Lookup(ApplyForwardAll(t, done).activity, LogKeyOf(l)) == Lookup(t.activity, LogKeyOf(l))
  {
    forall e | e in done ensures EventKey(e) != LogKeyOf(l) {
      var x := EventOfLog(w, e);
      if EventKey(e) == LogKeyOf(l) { SameKeySameLog(w.ls, x, l); }
    }
    OtherKeysUnchanged(t, done, LogKeyOf(l));
  }

  /** Event rows of the queue always stem from its logs in reach. */
  lemma EventRowJustified(w: Window, t: ForwardTables, done: seq<TicketEvent>, key: LogKey)
    requires w.Ok() && Fits(w.ls, t, w.v, w.q, w.c, w.m)
    requires forall e :: e in done ==> e in w.Events()
    requires Lookup(ApplyForwardAll(t, done).events, key).Some? && ApplyForwardAll(t, done).events[key].queue == w.q
    ensures Justified(w.ls, w.q, w.to, key)
  {
    var row := Lookup(ApplyForwardAll(t, done).events, key);
    EventRowSource(t, done, key);
    if row == Lookup(t.events, key) {
      assert Justified(w.ls, w.q, w.m, key);
    } else {
      var e :| e in done && EventKey(e) == key && row == Some(EventRowOf(e));
      var x := EventOfLog(w, e);
    }
  }

  /** An aborted tick: the checkpoint's rows stay, the rest is leftovers up to `to`. */
  lemma AbortFits(w: Window, t: ForwardTables, done: seq<TicketEvent>)
    requires w.Ok() && Fits(w.ls, t, w.v, w.q, w.c, w.m)
    requires forall e :: e in done ==> e in w.Events()
    ensures Fits(w.ls, ApplyForwardAll(t, done), w.v, w.q, w.c, w.to)
  {
    var t' := ApplyForwardAll(t, done);
    forall id: nat ensures TicketFits(w.ls, t', w.v, w.q, w.c, w.to, id) {
      TicketJunk(w, t, done, id);
    }
    forall l | l in w.ls && l.queue == w.q && l.block <= w.c ensures LogFits(w.ls, t', w.v, w.q, w.c, l) {
      CommittedRowsKept(w, t, done, l);
    }
    forall key | key in t'.events && t'.events[key].queue == w.q ensures Justified(w.ls, w.q, w.to, key) {
      EventRowJustified(w, t, done, key);
    }
  }

  // ---------- a completed tick ----------

  /** Committing a range over leftovers of it extends the committed history. */
  lemma CommitFold(v: Address, past: seq<ForwardLog>, part: seq<ForwardLog>, dirty: Option<TicketRow>)
    requires Leftover(FoldTicket(None, DecodeAll(v, past)), dirty, DecodeAll(v, part))
    ensures FoldTicket(dirty, DecodeAll(v, part)) == FoldTicket(None, DecodeAll(v, past + part))
  {
    LeftoverAbsorbed(FoldTicket(None, DecodeAll(v, past)), dirty, DecodeAll(v, part));
    DecodeAllConcat(v, past, part);
    FoldTicketConcat(None, DecodeAll(v, past), DecodeAll(v, part));
  }

  lemma TicketCompletes(w: Window, t: ForwardTables, id: nat)
    requires w.Ok() && TicketFits(w.ls, t, w.v, w.q, w.c, w.m, id)
    ensures TicketFits(w.ls, ApplyForwardAll(t, w.Events()), w.v, w.q, w.to, w.to, id)
  {
    var k := (w.q, id);
    TicketReach(w, t, id);
    TickEventsOfTicket(w, id);
    TicketLocality(t, w.Events(), k);
    CommitFold(w.v, w.Past(id), w.Part(id), Lookup(t.tickets, k));
    HistSplits(w.ls, w.q, id, 0, w.c, w.to);
    HistNone(w.ls, w.q, id, w.to + 1, w.to);
    assert DecodeAll(w.v, []) == [];
  }

  lemma SameEventSameLog(v: Address, ls: seq<ForwardLog>, part: seq<ForwardLog>, j: nat, l: ForwardLog)
    requires DistinctLogs(ls) && j < |part| && l in ls && (forall x :: x in part ==> x in ls)
    requires Decode(v, part[j]) == Decode(v, l)
    ensures part[j] == l
  {
    assert part[j] in part;
    assert EventKey(Decode(v, part[j])) == LogKeyOf(part[j]) && EventKey(Decode(v, l)) == LogKeyOf(l);
    SameKeySameLog(ls, part[j], l);
  }

  lemma PositionIn(v: Address, ls: seq<ForwardLog>, part: seq<ForwardLog>, es: seq<TicketEvent>, i: nat, l: ForwardLog)
    returns (j: nat)
    requires i < |es| && es[i] == Decode(v, l) && OfTicket(es, TicketOf(es[i])) == DecodeAll(v, part)
    requires DistinctLogs(ls) && l in ls && forall x :: x in part ==> x in ls
    ensures j < |part| && part[j] == l && OfTicket(es[..i], TicketOf(es[i])) == DecodeAll(v, part)[..j]
  {
    j := OfTicketSplit(es, i);
    SameEventSameLog(v, ls, part, j, l);
  }

  /** Where a log of the range stands among its ticket's events. */
  lemma LogPosition(w: Window, l: ForwardLog, i: nat) returns (j: nat)
    requires w.Ok() && l in w.ls && l.queue == w.q && i < |w.Events()| && w.Events()[i] == Decode(w.v, l)
    ensures j < |w.Part(l.ticketId)| && w.Part(l.ticketId)[j] == l
    ensures OfTicket(w.Events()[..i], (w.q, l.ticketId)) == DecodeAll(w.v, w.Part(l.ticketId))[..j]
  {
    TickEventsOfTicket(w, l.ticketId);
    HistMembers(w.ls, w.q, l.ticketId, w.c + 1, w.to);
    DecodeKeepsKeys(w.v, l);
    j := PositionIn(w.v, w.ls, w.Part(l.ticketId), w.Events(), i, l);
  }

  /** The owner a completed tick records for a log is the ticket's requester. */
  lemma LogOwner(w: Window, t: ForwardTables, l: ForwardLog, i: nat)
    requires w.Ok() && TicketFits(w.ls, t, w.v, w.q, w.c, w.m, l.ticketId)
    requires l in w.ls && l.queue == w.q && i < |w.Events()| && w.Events()[i] == Decode(w.v, l)
    ensures var h := w.Whole(l.ticketId);
            var k := (w.q, l.ticketId);
            && h != [] && IsRequestLog(h[0]) && h[0].args.owner != ""
            && OwnerFor(FoldTicket(Lookup(t.tickets, k), OfTicket(w.Events()[..i], k)), w.Events()[i])
               == h[0].args.owner
  {
    var id := l.ticketId;
    var j := LogPosition(w, l, i);
    TicketReach(w, t, id);
    HistGrammar(w.ls, w.q, id, w.c, w.to);
    RequesterKnown(w.v, w.Past(id), w.Part(id), Lookup(t.tickets, (w.q, id)), j);
  }

  lemma DecodeKeepsKeys(v: Address, l: ForwardLog)
    ensures TicketOf(Decode(v, l)) == (l.queue, l.ticketId) && EventKey(Decode(v, l)) == LogKeyOf(l)
  {
  }

  lemma LogIndex(w: Window, l: ForwardLog) returns (i: nat)
    requires w.Ok() && l in w.ls && l.queue == w.q && w.c + 1 <= l.block <= w.to
    ensures i < |w.Events()| && w.Events()[i] == Decode(w.v, l)
  {
    ForwardEventMembers(w.vs, w.ls, w.pairs, w.c + 1, w.to);
    assert Decode(w.v, l) in w.Events();
    i :| 0 <= i < |w.Events()| && w.Events()[i] == Decode(w.v, l);
  }

  /** In a completed tick each log of the range gets its event row, and an activity row under the
      ticket's requester. */
  lemma LogCompletes(w: Window, t: ForwardTables, l: ForwardLog)
    requires w.Ok() && TicketFits(w.ls, t, w.v, w.q, w.c, w.m, l.ticketId)
    requires l in w.ls && l.queue == w.q && w.c + 1 <= l.block <= w.to
    ensures LogFits(w.ls, ApplyForwardAll(t, w.Events()), w.v, w.q, w.to, l)
  {
    var i := LogIndex(w, l);
    ForwardEventsDistinct(w.vs, w.ls, w.pairs, w.c + 1, w.to);
    LogOwner(w, t, l, i);
    DecodeKeepsKeys(w.v, l);
    RowsUnderOwner(t, w.Events(), i, w.Whole(l.ticketId)[0].args.owner);
  }

  lemma HistHeadStays(ls: seq<ForwardLog>, q: Address, id: nat, c: int, to: int)
    requires Chronological(ls) && -1 <= c <= to && Hist(ls, q, id, 0, c) != []
    ensures Hist(ls, q, id, 0, to) != [] && Hist(ls, q, id, 0, to)[0] == Hist(ls, q, id, 0, c)[0]
  {
    HistSplits(ls, q, id, 0, c, to);
  }

  lemma CompleteFits(w: Window, t: ForwardTables)
    requires w.Ok() && Fits(w.ls, t, w.v, w.q, w.c, w.m)
    ensures Fits(w.ls, ApplyForwardAll(t, w.Events()), w.v, w.q, w.to, w.to)
  {
    var t' := ApplyForwardAll(t, w.Events());
    forall id: nat ensures TicketFits(w.ls, t', w.v, w.q, w.to, w.to, id) {
      TicketCompletes(w, t, id);
    }
    forall l | l in w.ls && l.queue == w.q && l.block <= w.to ensures LogFits(w.ls, t', w.v, w.q, w.to, l) {
      if l.block <= w.c {
        CommittedRowsKept(w, t, w.Events(), l);
        assert LogFits(w.ls, t, w.v, w.q, w.c, l);
        HistHeadStays(w.ls, w.q, l.ticketId, w.c, w.to);
      } else {
        LogCompletes(w, t, l);
      }
    }
    forall key | key in t'.events && t'.events[key].queue == w.q ensures Justified(w.ls, w.q, w.to, key) {
      EventRowJustified(w, t, w.Events(), key);
    }
  }

  // ---------- runs ----------

  /** The last committed block of a run from an empty database. */
  function CommittedBlock(startBlock: nat, chain: Chain, atts: seq<Attempt>): int {
    LastBlock(startBlock, Run(startBlock, chain, EMPTY_DB, atts).checkpoint, 0)
  }

  /** The highest block any attempt of the run has tried to reach. */
  function Frontier(startBlock: nat, chain: Chain, atts: seq<Attempt>): int
    decreases |atts|
  {
    if atts == [] then startBlock - 1
    else
      var init, a := atts[..|atts| - 1], atts[|atts| - 1];
      var db := Run(startBlock, chain, EMPTY_DB, init);
      if HasWork(startBlock, db.checkpoint, a.env) then To(From(startBlock, db, a.env), a.env.head)
      else Frontier(startBlock, chain, init)
  }

  lemma {:induction false} FrontierBounds(startBlock: nat, chain: Chain, atts: seq<Attempt>)
    requires startBlock > 0 && GrowingHead(atts)
    ensures var c, m := CommittedBlock(startBlock, chain, atts), Frontier(startBlock, chain, atts);
            && startBlock - 1 <= c <= m <= c + MAX_RANGE + 1
            && (m == c || (atts != [] && m <= atts[|atts| - 1].env.head))
    decreases |atts|
  {
    if atts == [] {
    } else {
      var init, a := atts[..|atts| - 1], atts[|atts| - 1];
      FrontierBounds(startBlock, chain, init);
      TickCheckpoint(startBlock, chain, Run(startBlock, chain, EMPTY_DB, init), a);
    }
  }

  lemma EmptyFits(startBlock: nat, chain: Chain, v: Address, q: Address, birth: CreationLog)
    requires startBlock > 0 && Tracked(startBlock, chain, [], v, q, birth)
    ensures Fits(chain.forward, EMPTY_DB.forward, v, q, startBlock - 1, startBlock - 1)
  {
    var c := startBlock - 1;
    forall id: nat ensures TicketFits(chain.forward, EMPTY_DB.forward, v, q, c, c, id) {
      HistNone(chain.forward, q, id, 0, c);
      HistNone(chain.forward, q, id, c + 1, c);
      assert DecodeAll(v, []) == [];
    }
  }

  // ---------- cutoffs over a run ----------

  /** The forward logs of the chain, each fill with the cutoff that the tick which committed it read
      (and beyond the checkpoint, the last attempt). */
  function View(startBlock: nat, chain: Chain, atts: seq<Attempt>): (ls: seq<ForwardLog>)
    ensures Alike(chain.forward, ls)
    decreases |atts|
  {
    if atts == [] then chain.forward
    else
      var init, a := atts[..|atts| - 1], atts[|atts| - 1];
      NextView(chain, View(startBlock, chain, init), a.env, CommittedBlock(startBlock, chain, init))
  }

  /** The view of a tick from checkpoint `c`: what is committed stays, the rest it reads itself. */
  function NextView(chain: Chain, before: seq<ForwardLog>, env: TickEnv, c: int): (ls: seq<ForwardLog>)
    requires Alike(chain.forward, before)
    ensures Alike(before, ls) && Alike(chain.forward, ls)
    ensures forall i :: 0 <= i < |ls| ==>
              ls[i] == if chain.forward[i].block <= c then before[i] else SeenLog(chain.forward[i], env.cutoffs)
  {
    var now := Seen(chain.forward, env.cutoffs);
    AlikeTrans(chain.forward, before, before);
    AlikeTrans(before, chain.forward, now);
    var ls := Merge(before, now, c);
    AlikeTrans(chain.forward, now, ls);
    ls
  }

  /** The completed tick of a run whose range holds this block. */
  ghost predicate CommittedBy(startBlock: nat, chain: Chain, atts: seq<Attempt>, j: nat, block: int)
    requires j < |atts|
  {
    var db := Run(startBlock, chain, EMPTY_DB, atts[..j]);
    var from := From(startBlock, db, atts[j].env);
    Completes(startBlock, chain, db, atts[j]) && from <= block <= To(from, atts[j].env.head)
  }

  lemma CommittedLast(startBlock: nat, chain: Chain, atts: seq<Attempt>, block: int)
    requires startBlock > 0 && atts != []
    requires CommittedBlock(startBlock, chain, atts[..|atts| - 1]) < block <= CommittedBlock(startBlock, chain, atts)
    ensures CommittedBy(startBlock, chain, atts, |atts| - 1, block)
  {
    TickCheckpoint(startBlock, chain, Run(startBlock, chain, EMPTY_DB, atts[..|atts| - 1]), atts[|atts| - 1]);
  }

  lemma CommittedBefore(startBlock: nat, chain: Chain, atts: seq<Attempt>, init: seq<Attempt>, j: nat, block: int)
    requires init <= atts && j < |init| && CommittedBy(startBlock, chain, init, j, block)
    ensures CommittedBy(startBlock, chain, atts, j, block)
  {
    assert init[..j] == atts[..j];
  }

  lemma ViewStep(startBlock: nat, chain: Chain, atts: seq<Attempt>, init: seq<Attempt>, a: Attempt, i: nat)
    requires atts == init + [a] && i < |chain.forward|
    ensures View(startBlock, chain, atts)[i] ==
            if chain.forward[i].block <= CommittedBlock(startBlock, chain, init) then View(startBlock, chain, init)[i]
            else SeenLog(chain.forward[i], a.env.cutoffs)
  {
    assert atts[..|atts| - 1] == init;
  }

  /** In the view every committed log carries the cutoff read by the tick that committed it. */
  lemma {:induction false} ViewIsCommitted(startBlock: nat, chain: Chain, atts: seq<Attempt>, i: nat) returns (j: nat)
    requires startBlock > 0 && i < |chain.forward|
    requires startBlock <= chain.forward[i].block <= CommittedBlock(startBlock, chain, atts)
    ensures j < |atts| && CommittedBy(startBlock, chain, atts, j, chain.forward[i].block)
    ensures var l, seen := chain.forward[i], View(startBlock, chain, atts)[i];
            && (!l.args.FillArgs? ==> seen == l)
            && (l.args.FillArgs? ==>
                  var key, read := (l.txHash, l.logIndex), atts[j].env.cutoffs;
                  seen == l.(args := FillArgs(l.args.filledCash, l.args.remainingCash,
                                              if key in read then read[key] else 0)))
    decreases |atts|
  {
    var block := chain.forward[i].block;
    if atts == [] {
      NothingCommitted(startBlock, chain);
      assert false;
    } else {
      var init := atts[..|atts| - 1];
      ViewStep(startBlock, chain, atts, init, atts[|atts| - 1], i);
      if block <= CommittedBlock(startBlock, chain, init) {
        j := ViewIsCommitted(startBlock, chain, init, i);
        CommittedBefore(startBlock, chain, atts, init, j, block);
      } else {
        CommittedLast(startBlock, chain, atts, block);
        j := |atts| - 1;
      }
    }
  }

  lemma NothingCommitted(startBlock: nat, chain: Chain)
    requires startBlock > 0
    ensures CommittedBlock(startBlock, chain, []) == startBlock - 1
  {
  }

  lemma LeftoverAlike(clean: Option<TicketRow>, dirty: Option<TicketRow>, v: Address, a: seq<ForwardLog>,
                      b: seq<ForwardLog>)
    requires Alike(a, b) && Leftover(clean, dirty, DecodeAll(v, a))
    ensures Leftover(clean, dirty, DecodeAll(v, b))
  {
    if a == [] {
    } else {
      assert Blank(a[0]) == Blank(b[0]);
      DecodeAlike(v, a[0], b[0]);
    }
  }

  /** The two views agree up to block `c`. */
  predicate AgreeTo(a: seq<ForwardLog>, b: seq<ForwardLog>, c: int) {
    Alike(a, b) && forall i :: 0 <= i < |a| && a[i].block <= c ==> a[i] == b[i]
  }

  lemma HistAgrees(a: seq<ForwardLog>, b: seq<ForwardLog>, q: Address, id: nat, c: int)
    requires AgreeTo(a, b, c)
    ensures Hist(a, q, id, 0, c) == Hist(b, q, id, 0, c)
  {
    forall i | 0 <= i < |a| ensures a[i].block == b[i].block { assert Blank(a[i]) == Blank(b[i]); }
    SelectSame(a, b, InTicket(q, id, 0, c));
  }

  lemma TicketFitsAgrees(a: seq<ForwardLog>, b: seq<ForwardLog>, t: ForwardTables, v: Address, q: Address, c: int,
                         m: int, id: nat)
    requires AgreeTo(a, b, c) && TicketFits(a, t, v, q, c, m, id)
    ensures TicketFits(b, t, v, q, c, m, id)
  {
    HistAgrees(a, b, q, id, c);
    SelectAlike(a, b, InTicket(q, id, c + 1, m));
    LeftoverAlike(FoldTicket(None, DecodeAll(v, Hist(a, q, id, 0, c))), Lookup(t.tickets, (q, id)), v,
                  Hist(a, q, id, c + 1, m), Hist(b, q, id, c + 1, m));
  }

  /** A log of one view and its twin in the other. */
  lemma Twin(a: seq<ForwardLog>, b: seq<ForwardLog>, l: ForwardLog) returns (x: ForwardLog)
    requires Alike(a, b) && l in b
    ensures x in a && Blank(x) == Blank(l)
    ensures forall c: int :: AgreeTo(a, b, c) && l.block <= c ==> x == l
  {
    var i :| 0 <= i < |b| && b[i] == l;
    x := a[i];
    assert Blank(a[i]) == Blank(b[i]);
  }

  /** The invariant is about committed cutoffs only. */
  lemma FitsAgrees(a: seq<ForwardLog>, b: seq<ForwardLog>, t: ForwardTables, v: Address, q: Address, c: int, m: int)
    requires AgreeTo(a, b, c) && AgreeTo(b, a, c) && Fits(a, t, v, q, c, m)
    ensures Fits(b, t, v, q, c, m)
  {
    forall id: nat ensures TicketFits(b, t, v, q, c, m, id) {
      TicketFitsAgrees(a, b, t, v, q, c, m, id);
    }
    forall l | l in b && l.queue == q && l.block <= c ensures LogFits(b, t, v, q, c, l) {
      var x := Twin(a, b, l);
      HistAgrees(a, b, q, l.ticketId, c);
      assert LogFits(a, t, v, q, c, l);
    }
    forall key | key in t.events && t.events[key].queue == q ensures Justified(b, q, m, key) {
      var l :| l in a && l.queue == q && l.block <= m && key == LogKeyOf(l);
      var x := Twin(b, a, l);
    }
  }

  /** Logs that agree from a block on give a tick from there the same events. */
  lemma {:induction false} EventsAgree(vs: set<Address>, a: seq<ForwardLog>, b: seq<ForwardLog>,
                                       pairs: seq<(Address, Address)>, from: int, to: int)
    requires Alike(a, b) && forall i :: 0 <= i < |a| && a[i].block >= from ==> a[i] == b[i]
    ensures ForwardEvents(vs, a, pairs, from, to) == ForwardEvents(vs, b, pairs, from, to)
  {
    if pairs == [] {
    } else {
      forall i | 0 <= i < |a| ensures a[i].block == b[i].block { assert Blank(a[i]) == Blank(b[i]); }
      SelectSame(a, b, InQueue(pairs[0].1, from, to));
      EventsAgree(vs, a, b, pairs[1..], from, to);
    }
  }

  /** What is assumed of a tracked queue's logs holds of every view of them. */
  lemma TrackedView(startBlock: nat, chain: Chain, v: Address, q: Address, birth: CreationLog, ls: seq<ForwardLog>)
    requires LogsOk(chain.forward) && Tracked(startBlock, chain, [], v, q, birth) && Alike(chain.forward, ls)
    ensures LogsOk(ls) && forall id: nat :: Grammar(AllOf(ls, q, id))
  {
    LogsOkAlike(chain.forward, ls);
    forall id: nat ensures Grammar(AllOf(ls, q, id)) {
      SelectAlike(chain.forward, ls, OfTicketId(q, id));
      GrammarAlike(AllOf(chain.forward, q, id), AllOf(ls, q, id));
    }
  }

  lemma ListedView(startBlock: nat, chain: Chain, db: Db, env: TickEnv, v: Address, q: Address, birth: CreationLog,
                   c: int, to: int, ls: seq<ForwardLog>)
    requires Tracked(startBlock, chain, [], v, q, birth) && Lists(chain, env, v, q) && Alike(chain.forward, ls)
    requires to <= env.head && (birth.block <= c ==> v in db.baskets)
    ensures forall l :: l in ls && l.queue == q && l.block <= to ==>
              (v, q) in env.pairs && v in VaultsAfter(db, chain, c + 1, to)
  {
    forall l | l in ls && l.queue == q && l.block <= to
      ensures (v, q) in env.pairs && v in VaultsAfter(db, chain, c + 1, to)
    {
      var x := Twin(chain.forward, ls, l);
    }
  }

  /** The next tick of a run, seen from a tracked queue. */
  lemma NextWindow(startBlock: nat, chain: Chain, db: Db, env: TickEnv, v: Address, q: Address, birth: CreationLog,
                   c: int, m: int, before: seq<ForwardLog>)
    returns (w: Window)
    requires startBlock > 0 && LogsOk(chain.forward) && Alike(chain.forward, before)
    requires Tracked(startBlock, chain, [], v, q, birth) && Lists(chain, env, v, q)
    requires HasWork(startBlock, db.checkpoint, env) && c == LastBlock(startBlock, db.checkpoint, env.head)
    requires startBlock - 1 <= c <= m <= c + MAX_RANGE + 1 && (m == c || m <= env.head)
    requires birth.block <= c ==> v in db.baskets
    ensures w.Ok() && w.ls == NextView(chain, before, env, c) && w.v == v && w.q == q && w.c == c && w.m == m
    ensures w.to == To(c + 1, env.head) && w.Events() == TickEvents(chain, db, env, c + 1, w.to)
    ensures w.vs == VaultsAfter(db, chain, c + 1, w.to)
    ensures birth.block <= w.to ==> v in w.vs
  {
    var to := To(c + 1, env.head);
    var ls := NextView(chain, before, env, c);
    w := Window(ls, env.pairs, VaultsAfter(db, chain, c + 1, to), v, q, c, m, to);
    TrackedView(startBlock, chain, v, q, birth, ls);
    ListedView(startBlock, chain, db, env, v, q, birth, c, to, ls);
    NextEvents(chain, before, env, c, w.vs, to);
  }

  lemma NextEvents(chain: Chain, before: seq<ForwardLog>, env: TickEnv, c: int, vs: set<Address>, to: int)
    requires Alike(chain.forward, before)
    ensures ForwardEvents(vs, NextView(chain, before, env, c), env.pairs, c + 1, to)
            == ForwardEvents(vs, Seen(chain.forward, env.cutoffs), env.pairs, c + 1, to)
  {
    var ls, now := NextView(chain, before, env, c), Seen(chain.forward, env.cutoffs);
    forall i | 0 <= i < |ls| ensures Blank(ls[i]) == Blank(now[i]) && chain.forward[i].block == ls[i].block {
      assert Blank(chain.forward[i]) == Blank(ls[i]) && Blank(chain.forward[i]) == Blank(now[i]);
    }
    EventsAgree(vs, ls, now, env.pairs, c + 1, to);
  }

  lemma NextViewAgrees(chain: Chain, before: seq<ForwardLog>, env: TickEnv, c: int)
    requires Alike(chain.forward, before)
    ensures AgreeTo(before, NextView(chain, before, env, c), c) && AgreeTo(NextView(chain, before, env, c), before, c)
  {
    AlikeTrans(before, NextView(chain, before, env, c), before);
    forall i | 0 <= i < |before| ensures chain.forward[i].block == before[i].block {
      assert Blank(chain.forward[i]) == Blank(before[i]);
    }
  }

  // ---------- the invariant over a run ----------

  /** The invariant of a run, with the vault of the queue indexed once its creation is committed. */
  ghost predicate Inv(ls: seq<ForwardLog>, db: Db, v: Address, q: Address, birth: CreationLog, c: int, m: int) {
    Fits(ls, db.forward, v, q, c, m) && (birth.block <= c ==> v in db.baskets)
  }

  /** One tick of a run keeps the invariant. */
  lemma TickFits(startBlock: nat, chain: Chain, db: Db, env: TickEnv, v: Address, q: Address, birth: CreationLog,
                 c: int, m: int, before: seq<ForwardLog>, done: seq<TicketEvent>, complete: bool, db': Db)
    requires startBlock > 0 && LogsOk(chain.forward) && Alike(chain.forward, before)
    requires Tracked(startBlock, chain, [], v, q, birth) && Lists(chain, env, v, q)
    requires HasWork(startBlock, db.checkpoint, env) && c == LastBlock(startBlock, db.checkpoint, env.head)
    requires startBlock - 1 <= c <= m <= c + MAX_RANGE + 1 && (m == c || m <= env.head)
    requires Inv(NextView(chain, before, env, c), db, v, q, birth, c, m)
    requires Effect(startBlock, chain, db, env, done, complete, db')
    ensures var to := To(c + 1, env.head);
            Inv(NextView(chain, before, env, c), db', v, q, birth, if complete then to else c, to)
  {
    var w := NextWindow(startBlock, chain, db, env, v, q, birth, c, m, before);
    WindowFits(w, db.forward, done, complete, db'.forward);
  }

  /** What one tick does to a window. */
  lemma WindowFits(w: Window, t: ForwardTables, done: seq<TicketEvent>, complete: bool, t': ForwardTables)
    requires w.Ok() && Fits(w.ls, t, w.v, w.q, w.c, w.m) && t' == ApplyForwardAll(t, done)
    requires if complete then done == w.Events() else forall e :: e in done ==> e in w.Events()
    ensures Fits(w.ls, t', w.v, w.q, if complete then w.to else w.c, w.to)
  {
    if complete {
      CompleteFits(w, t);
    } else {
      AbortFits(w, t, done);
    }
  }

  /** One more tick of a run, whatever it does. */
  lemma StepFits(startBlock: nat, chain: Chain, db: Db, env: TickEnv, v: Address, q: Address, birth: CreationLog,
                 c: int, m: int, before: seq<ForwardLog>, done: seq<TicketEvent>, complete: bool, db': Db)
    requires startBlock > 0 && LogsOk(chain.forward) && Alike(chain.forward, before)
    requires Tracked(startBlock, chain, [], v, q, birth) && Lists(chain, env, v, q)
    requires c == LastBlock(startBlock, db.checkpoint, 0)
    requires startBlock - 1 <= c <= m <= c + MAX_RANGE + 1 && (m == c || m <= env.head)
    requires Inv(before, db, v, q, birth, c, m)
    requires if HasWork(startBlock, db.checkpoint, env) then Effect(startBlock, chain, db, env, done, complete, db')
             else db' == db
    ensures Inv(NextView(chain, before, env, c), db', v, q, birth, LastBlock(startBlock, db'.checkpoint, 0),
                if HasWork(startBlock, db.checkpoint, env) then To(From(startBlock, db, env), env.head) else m)
  {
    NextViewAgrees(chain, before, env, c);
    FitsAgrees(before, NextView(chain, before, env, c), db.forward, v, q, c, m);
    if HasWork(startBlock, db.checkpoint, env) {
      TickFits(startBlock, chain, db, env, v, q, birth, c, m, before, done, complete, db');
    }
  }

  /** Every run keeps the invariant. */
  lemma {:induction false} RunFits(startBlock: nat, chain: Chain, atts: seq<Attempt>, v: Address, q: Address,
                                   birth: CreationLog)
    requires startBlock > 0 && LogsOk(chain.forward) && GrowingHead(atts)
    requires Tracked(startBlock, chain, atts, v, q, birth)
    ensures Inv(View(startBlock, chain, atts), Run(startBlock, chain, EMPTY_DB, atts), v, q, birth,
                CommittedBlock(startBlock, chain, atts), Frontier(startBlock, chain, atts))
    decreases |atts|
  {
    if atts == [] {
      EmptyFits(startBlock, chain, v, q, birth);
    } else {
      var init, a := atts[..|atts| - 1], atts[|atts| - 1];
      assert a in atts && Lists(chain, a.env, v, q);
      RunFits(startBlock, chain, init, v, q, birth);
      FrontierBounds(startBlock, chain, init);
      var db := Run(startBlock, chain, EMPTY_DB, init);
      var done, complete := TickDid(startBlock, chain, db, a);
      StepFits(startBlock, chain, db, a.env, v, q, birth,
               CommittedBlock(startBlock, chain, init), Frontier(startBlock, chain, init),
               View(startBlock, chain, init), done, complete, Tick(startBlock, chain, db, a));
    }
  }

  /** What the invariant says once no attempt has reached beyond the checkpoint. */
  lemma FitsAtCheckpoint(ls: seq<ForwardLog>, t: ForwardTables, v: Address, q: Address, c: int, id: nat)
    requires LogsOk(ls) && c >= -1 && TicketFits(ls, t, v, q, c, c, id)
    requires Grammar(AllOf(ls, q, id))
    ensures Grammar(Hist(ls, q, id, 0, c)) && Lookup(t.tickets, (q, id)) == TicketMeaning(v, Hist(ls, q, id, 0, c))
  {
    HistGrammar(ls, q, id, c, c);
    HistNone(ls, q, id, c + 1, c);
    assert DecodeAll(v, []) == [];
    FoldIsMeaning(v, Hist(ls, q, id, 0, c));
  }

  /** What the chain says in an event, as the feed shows it. */
  function Details(a: LogArgs): Payload {
    match a
    case CreateArgs(_, cash, cutoff) => RequestPayload(cash, cutoff)
    case RedeemArgs(_, shares, cutoff) => RequestPayload(shares, cutoff)
    case FillArgs(filled, remaining, _) => FillPayload(filled, remaining)
    case SettledArgs => EmptyPayload
    case CancelledArgs => EmptyPayload
  }

  /** The rows a log leaves, read off the log, its vault and the request that opened its ticket. */
  ghost predicate Recorded(ls: seq<ForwardLog>, t: ForwardTables, v: Address, q: Address, c: int, l: ForwardLog) {
    var h, ms := Hist(ls, q, l.ticketId, 0, c), l.timestamp * 1000;
    && h != [] && IsRequestLog(h[0])
    && Lookup(t.events, (l.txHash, l.logIndex))
       == Some(EventRow(l.queue, v, l.ticketId, KindOf(l.args), Details(l.args), ms))
    && Lookup(t.activity, (l.txHash, l.logIndex))
       == Some(ActivityRow(h[0].args.owner, v, KindOf(l.args), Details(l.args), l.block, ms))
  }

  lemma FitsIsRecorded(ls: seq<ForwardLog>, t: ForwardTables, v: Address, q: Address, c: int, l: ForwardLog)
    requires LogFits(ls, t, v, q, c, l)
    ensures Recorded(ls, t, v, q, c, l)
  {
  }

  /** The rows of one queue are what its logs up to block `c` mean: each ticket row is the meaning of
      the ticket's logs, the queue's event rows are its logs one for one, and each log's activity row
      names the one who opened the ticket. */
  ghost predicate RowsAreMeaning(ls: seq<ForwardLog>, t: ForwardTables, v: Address, q: Address, c: int) {
    && (forall id: nat ::
          Grammar(Hist(ls, q, id, 0, c)) && Lookup(t.tickets, (q, id)) == TicketMeaning(v, Hist(ls, q, id, 0, c)))
    && (forall l :: l in ls && l.queue == q && l.block <= c ==> Recorded(ls, t, v, q, c, l))
    && (forall key :: key in t.events && t.events[key].queue == q ==> Justified(ls, q, c, key))
  }

  lemma FitsIsMeaning(startBlock: nat, chain: Chain, ls: seq<ForwardLog>, t: ForwardTables, v: Address, q: Address,
                      birth: CreationLog, c: int)
    requires LogsOk(chain.forward) && Tracked(startBlock, chain, [], v, q, birth) && Alike(chain.forward, ls)
    requires c >= -1 && Fits(ls, t, v, q, c, c)
    ensures RowsAreMeaning(ls, t, v, q, c)
  {
    TrackedView(startBlock, chain, v, q, birth, ls);
    forall id: nat
      ensures Grammar(Hist(ls, q, id, 0, c)) && Lookup(t.tickets, (q, id)) == TicketMeaning(v, Hist(ls, q, id, 0, c))
    {
      assert TicketFits(ls, t, v, q, c, c, id);
      FitsAtCheckpoint(ls, t, v, q, c, id);
    }
    forall l | l in ls && l.queue == q && l.block <= c ensures Recorded(ls, t, v, q, c, l) {
      FitsIsRecorded(ls, t, v, q, c, l);
    }
  }

  /** The read model refines the chain: after any run whose last tick completes, the rows at its
      checkpoint are what the logs up to it mean, each fill with the cutoff read when it was committed. */
  lemma {:induction false} ReadModelRefinesChain(startBlock: nat, chain: Chain, atts: seq<Attempt>, v: Address,
                                                 q: Address, birth: CreationLog)
    requires startBlock > 0 && LogsOk(chain.forward) && GrowingHead(atts)
    requires Tracked(startBlock, chain, atts, v, q, birth)
    requires atts != [] &&
             Completes(startBlock, chain, Run(startBlock, chain, EMPTY_DB, atts[..|atts| - 1]), atts[|atts| - 1])
    ensures var db := Run(startBlock, chain, EMPTY_DB, atts);
            db.checkpoint.Some? &&
            RowsAreMeaning(View(startBlock, chain, atts), db.forward, v, q, db.checkpoint.value)
  {
    RunFits(startBlock, chain, atts, v, q, birth);
    TickCheckpoint(startBlock, chain, Run(startBlock, chain, EMPTY_DB, atts[..|atts| - 1]), atts[|atts| - 1]);
    FrontierBounds(startBlock, chain, atts);
    var c := CommittedBlock(startBlock, chain, atts);
    assert Frontier(startBlock, chain, atts) == c;
    FitsIsMeaning(startBlock, chain, View(startBlock, chain, atts), Run(startBlock, chain, EMPTY_DB, atts).forward,
                  v, q, birth, c);
  }

  /** The assumptions can be met: one vault, one request, one tick that gets all its writes done. */
  lemma OneTickMeetsAssumptions(v: Address, q: Address, owner: Address)
    requires owner != ""
    ensures var birth, l := CreationLog(v, Managed, [], "", 1),
                            ForwardLog(q, 0, CreateArgs(owner, 5, 9), "tx", 0, 1, 7);
            var chain, env := Chain([birth], [], [l]), TickEnv(true, 1, [(v, q)], [v], map[], map[], map[]);
            var a := Attempt(env, |TickWrites(1, chain, EMPTY_DB, env)|);
            && LogsOk(chain.forward) && GrowingHead([a]) && Tracked(1, chain, [a], v, q, birth)
            && Completes(1, chain, Run(1, chain, EMPTY_DB, []), a)
  {
    var birth, l := CreationLog(v, Managed, [], "", 1), ForwardLog(q, 0, CreateArgs(owner, 5, 9), "tx", 0, 1, 7);
    var chain, env := Chain([birth], [], [l]), TickEnv(true, 1, [(v, q)], [v], map[], map[], map[]);
    assert chain.creations[0] == birth && env.pairs[0] == (v, q);
    forall id: nat ensures Grammar(AllOf(chain.forward, q, id)) {
      assert [l][0] == l && [l][1..] == [];
      assert Select([l][1..], OfTicketId(q, id)) == [];
      assert AllOf(chain.forward, q, id) == if Matches(l, OfTicketId(q, id)) then [l] else [];
    }
  }
}
