/** One forward-queue event applied to the read model, and what a list of them adds up to.
    The last theorem is crash absorption: events of a retried range, applied any number of times in
    any order before the whole range is applied, leave no trace. */
module ForwardTickets {
  import opened Options
  import opened IndexerTypes

  // ---------- decoding (ViemChainLogReader.getForwardQueueLogs) ----------

  function Decode(vault: Address, l: ForwardLog): TicketEvent {
    var ts := l.timestamp * 1000;
    match l.args
    case CreateArgs(owner, cash, cutoff) =>
      TicketEvent(vault, l.queue, l.ticketId, CreateRequested, owner, cash, cash, cutoff * 1000,
                  l.txHash, l.logIndex, l.block, ts, RequestPayload(cash, cutoff))
    case RedeemArgs(owner, shares, cutoff) =>
      TicketEvent(vault, l.queue, l.ticketId, RedeemRequested, owner, shares, shares, cutoff * 1000,
                  l.txHash, l.logIndex, l.block, ts, RequestPayload(shares, cutoff))
    case FillArgs(filled, remaining, cutoffMs) =>
      TicketEvent(vault, l.queue, l.ticketId, PartialFill, "", 0, remaining, cutoffMs,
                  l.txHash, l.logIndex, l.block, ts, FillPayload(filled, remaining))
    case SettledArgs =>
      TicketEvent(vault, l.queue, l.ticketId, Settled, "", 0, 0, ts,
                  l.txHash, l.logIndex, l.block, ts, EmptyPayload)
    case CancelledArgs =>
      TicketEvent(vault, l.queue, l.ticketId, Cancelled, "", 0, 0, ts,
                  l.txHash, l.logIndex, l.block, ts, EmptyPayload)
  }

  function DecodeAll(vault: Address, ls: seq<ForwardLog>): (es: seq<TicketEvent>)
    ensures |es| == |ls|
    ensures forall i :: 0 <= i < |ls| ==> es[i] == Decode(vault, ls[i])
  {
    seq(|ls|, i requires 0 <= i < |ls| => Decode(vault, ls[i]))
  }

  // ---------- one event (IndexerRepository.applyForwardEvent) ----------

  predicate IsRequest(e: TicketEvent) { IsRequestKind(e.kind) }

  /** The ticket row after an upsert of `e`: a request (or a missing row) writes every column, any
      other event only the settle-state columns. */
  function StepTicket(row: Option<TicketRow>, e: TicketEvent): TicketRow {
    var remaining := if IsTerminalKind(e.kind) then 0 else e.remaining;
    if IsRequest(e) || row.None? then
      TicketRow(e.vault, e.owner, if e.kind == RedeemRequested then Redeem else Create, e.amount,
                remaining, StatusOf(e.kind), e.cutoffMs)
    else
      row.value.(remaining := remaining, status := StatusOf(e.kind), cutoffMs := e.cutoffMs)
  }

  /** The owner recorded in the activity feed; empty when the request row is unknown. */
  function OwnerFor(row: Option<TicketRow>, e: TicketEvent): Address {
    if IsRequest(e) then e.owner else if row.Some? then row.value.owner else ""
  }

  function EventRowOf(e: TicketEvent): EventRow {
    EventRow(e.queue, e.vault, e.ticketId, e.kind, e.payload, e.timestampMs)
  }

  function ActivityRowOf(e: TicketEvent, owner: Address): ActivityRow {
    ActivityRow(owner, e.vault, e.kind, e.payload, e.block, e.timestampMs)
  }

  /** The three upserts of one transaction. */
  function ApplyForward(t: ForwardTables, e: TicketEvent): ForwardTables {
    var row := Lookup(t.tickets, TicketOf(e));
    var owner := OwnerFor(row, e);
    ForwardTables(t.tickets[TicketOf(e) := StepTicket(row, e)],
                  t.events[EventKey(e) := EventRowOf(e)],
                  if owner != "" then t.activity[EventKey(e) := ActivityRowOf(e, owner)] else t.activity)
  }

  function ApplyForwardAll(t: ForwardTables, es: seq<TicketEvent>): ForwardTables
    decreases |es|
  {
    if es == [] then t else ApplyForwardAll(ApplyForward(t, es[0]), es[1..])
  }

  lemma {:induction false} ApplyForwardAllConcat(t: ForwardTables, a: seq<TicketEvent>, b: seq<TicketEvent>)
    ensures ApplyForwardAll(t, a + b) == ApplyForwardAll(ApplyForwardAll(t, a), b)
    decreases |a|
  {
    if a == [] {
      assert a + b == b;
    } else {
      assert (a + b)[1..] == a[1..] + b;
      ApplyForwardAllConcat(ApplyForward(t, a[0]), a[1..], b);
    }
  }

  // ---------- one ticket at a time ----------

  /** The events of one ticket, in order. */
  function OfTicket(es: seq<TicketEvent>, k: TicketKey): seq<TicketEvent> {
    if es == [] then []
    else if TicketOf(es[0]) == k then [es[0]] + OfTicket(es[1..], k)
    else OfTicket(es[1..], k)
  }

  lemma {:induction false} OfTicketMembers(es: seq<TicketEvent>, k: TicketKey)
    ensures forall e :: e in OfTicket(es, k) <==> e in es && TicketOf(e) == k
  {
    if es == [] {
    } else {
      OfTicketMembers(es[1..], k);
      assert forall e :: e in es <==> e == es[0] || e in es[1..];
    }
  }

  lemma {:induction false} OfTicketConcat(a: seq<TicketEvent>, b: seq<TicketEvent>, k: TicketKey)
    ensures OfTicket(a + b, k) == OfTicket(a, k) + OfTicket(b, k)
    decreases |a|
  {
    if a == [] {
      assert a + b == b;
    } else {
      assert (a + b)[1..] == a[1..] + b;
      OfTicketConcat(a[1..], b, k);
    }
  }

  function FoldTicket(row: Option<TicketRow>, es: seq<TicketEvent>): Option<TicketRow>
    decreases |es|
  {
    if es == [] then row else FoldTicket(Some(StepTicket(row, es[0])), es[1..])
  }

  lemma {:induction false} FoldTicketConcat(row: Option<TicketRow>, a: seq<TicketEvent>, b: seq<TicketEvent>)
    ensures FoldTicket(row, a + b) == FoldTicket(FoldTicket(row, a), b)
    decreases |a|
  {
    if a == [] {
      assert a + b == b;
    } else {
      assert (a + b)[1..] == a[1..] + b;
      FoldTicketConcat(Some(StepTicket(row, a[0])), a[1..], b);
    }
  }

  /** A ticket's row depends on that ticket's events only, in their order. */
  lemma {:induction false} TicketLocality(t: ForwardTables, es: seq<TicketEvent>, k: TicketKey)
    ensures Lookup(ApplyForwardAll(t, es).tickets, k) == FoldTicket(Lookup(t.tickets, k), OfTicket(es, k))
    decreases |es|
  {
    if es == [] {
    } else {
      TicketLocality(ApplyForward(t, es[0]), es[1..], k);
      if TicketOf(es[0]) == k {
        assert OfTicket(es, k)[1..] == OfTicket(es[1..], k);
      } else {
        assert OfTicket(es, k) == OfTicket(es[1..], k);
      }
    }
  }

  predicate DistinctKeys(es: seq<TicketEvent>) {
    forall i, j :: 0 <= i < j < |es| ==> EventKey(es[i]) != EventKey(es[j])
  }

  /** Keys no event carries keep their rows. */
  lemma {:induction false} OtherKeysUnchanged(t: ForwardTables, es: seq<TicketEvent>, key: LogKey)
    requires forall e :: e in es ==> EventKey(e) != key
    ensures Lookup(ApplyForwardAll(t, es).events, key) == Lookup(t.events, key)
    ensures Lookup(ApplyForwardAll(t, es).activity, key) == Lookup(t.activity, key)
    decreases |es|
  {
    if es == [] {
    } else {
      assert es[0] in es;
      forall e | e in es[1..] ensures EventKey(e) != key { assert e in es; }
      OtherKeysUnchanged(ApplyForward(t, es[0]), es[1..], key);
    }
  }

  lemma RowsOfMiddle(t: ForwardTables, pre: seq<TicketEvent>, e: TicketEvent, post: seq<TicketEvent>)
    requires forall f :: f in pre || f in post ==> EventKey(f) != EventKey(e)
    ensures var r := ApplyForwardAll(t, pre + [e] + post);
            var owner := OwnerFor(FoldTicket(Lookup(t.tickets, TicketOf(e)), OfTicket(pre, TicketOf(e))), e);
            && Lookup(r.events, EventKey(e)) == Some(EventRowOf(e))
            && Lookup(r.activity, EventKey(e))
               == if owner != "" then Some(ActivityRowOf(e, owner)) else Lookup(t.activity, EventKey(e))
  {
    var mid := ApplyForwardAll(t, pre);
    ApplyForwardAllConcat(t, pre + [e], post);
    ApplyForwardAllConcat(t, pre, [e]);
    assert [e][1..] == [];
    assert ApplyForwardAll(mid, [e]) == ApplyForward(mid, e);
    TicketLocality(t, pre, TicketOf(e));
    OtherKeysUnchanged(t, pre, EventKey(e));
    OtherKeysUnchanged(ApplyForward(mid, e), post, EventKey(e));
  }

  /** A ForwardEvent row stems from an applied event or was there before. */
  lemma {:induction false} EventRowSource(t: ForwardTables, es: seq<TicketEvent>, key: LogKey)
    ensures var r := Lookup(ApplyForwardAll(t, es).events, key);
            r == Lookup(t.events, key) || exists e :: e in es && EventKey(e) == key && r == Some(EventRowOf(e))
    decreases |es|
  {
    if es == [] {
    } else {
      assert es[0] in es && forall e :: e in es[1..] ==> e in es;
      EventRowSource(ApplyForward(t, es[0]), es[1..], key);
    }
  }

  /** Each event has one ForwardEvent row, and an activity row under the owner that the ticket's
      earlier events establish. */
  lemma {:induction false} EventAndActivityRows(t: ForwardTables, es: seq<TicketEvent>, i: nat)
    requires DistinctKeys(es) && i < |es|
    ensures var r := ApplyForwardAll(t, es);
            var k := TicketOf(es[i]);
            var owner := OwnerFor(FoldTicket(Lookup(t.tickets, k), OfTicket(es[..i], k)), es[i]);
            && Lookup(r.events, EventKey(es[i])) == Some(EventRowOf(es[i]))
            && Lookup(r.activity, EventKey(es[i]))
               == if owner != "" then Some(ActivityRowOf(es[i], owner)) else Lookup(t.activity, EventKey(es[i]))
  {
    var pre, post := es[..i], es[i + 1..];
    assert es == pre + [es[i]] + post;
    forall f | f in pre || f in post ensures EventKey(f) != EventKey(es[i]) {
      if f in pre {
        var j :| 0 <= j < |pre| && pre[j] == f;
        assert es[j] == f;
      } else {
        var j :| 0 <= j < |post| && post[j] == f;
        assert es[i + 1 + j] == f;
      }
    }
    RowsOfMiddle(t, pre, es[i], post);
  }

  /** The same with the owner known. */
  lemma RowsUnderOwner(t: ForwardTables, es: seq<TicketEvent>, i: nat, owner: Address)
    requires DistinctKeys(es) && i < |es| && owner != ""
    requires OwnerFor(FoldTicket(Lookup(t.tickets, TicketOf(es[i])), OfTicket(es[..i], TicketOf(es[i]))), es[i])
             == owner
    ensures Lookup(ApplyForwardAll(t, es).events, EventKey(es[i])) == Some(EventRowOf(es[i]))
    ensures Lookup(ApplyForwardAll(t, es).activity, EventKey(es[i])) == Some(ActivityRowOf(es[i], owner))
  {
    EventAndActivityRows(t, es, i);
  }

  /** Position of an event among its ticket's events. */
  lemma OfTicketSplit(es: seq<TicketEvent>, i: nat) returns (j: nat)
    requires i < |es|
    ensures var k := TicketOf(es[i]);
            j < |OfTicket(es, k)| && OfTicket(es, k)[j] == es[i] && OfTicket(es[..i], k) == OfTicket(es, k)[..j]
  {
    var k := TicketOf(es[i]);
    assert es == es[..i] + es[i..];
    OfTicketConcat(es[..i], es[i..], k);
    j := |OfTicket(es[..i], k)|;
  }

  lemma SamePosition(es: seq<TicketEvent>, k: TicketKey, i: nat, j: nat)
    requires DistinctKeys(es) && i < |OfTicket(es, k)| && j < |OfTicket(es, k)| &&
             OfTicket(es, k)[i] == OfTicket(es, k)[j]
    ensures i == j
  {
    OfTicketDistinct(es, k);
  }

  lemma {:induction false} OfTicketDistinct(es: seq<TicketEvent>, k: TicketKey)
    requires DistinctKeys(es)
    ensures DistinctKeys(OfTicket(es, k))
  {
    if es == [] {
    } else {
      var tl := es[1..];
      forall i, j | 0 <= i < j < |tl| ensures EventKey(tl[i]) != EventKey(tl[j]) {
        assert es[i + 1] == tl[i] && es[j + 1] == tl[j];
      }
      OfTicketDistinct(tl, k);
      OfTicketMembers(tl, k);
      forall e | e in OfTicket(tl, k) ensures EventKey(e) != EventKey(es[0]) {
        var j :| 0 <= j < |tl| && tl[j] == e;
        assert es[j + 1] == e;
      }
      ConsDistinct(es[0], OfTicket(tl, k));
    }
  }

  lemma ConsDistinct(e: TicketEvent, es: seq<TicketEvent>)
    requires DistinctKeys(es) && forall f :: f in es ==> EventKey(f) != EventKey(e)
    ensures DistinctKeys([e] + es)
  {
    forall j | 0 <= j < |es| ensures EventKey(es[j]) != EventKey(e) { assert es[j] in es; }
  }

  /** Two lists that hold the same events, in the same order for each ticket. */
  ghost predicate SameOrder(a: seq<TicketEvent>, b: seq<TicketEvent>) {
    && DistinctKeys(a) && DistinctKeys(b)
    && (forall e :: e in a <==> e in b)
    && (forall k :: OfTicket(a, k) == OfTicket(b, k))
  }

  lemma SameRows(t: ForwardTables, a: seq<TicketEvent>, b: seq<TicketEvent>, e: TicketEvent)
    requires SameOrder(a, b) && e in a
    ensures Lookup(ApplyForwardAll(t, a).events, EventKey(e)) == Lookup(ApplyForwardAll(t, b).events, EventKey(e))
    ensures Lookup(ApplyForwardAll(t, a).activity, EventKey(e)) == Lookup(ApplyForwardAll(t, b).activity, EventKey(e))
  {
    var i :| 0 <= i < |a| && a[i] == e;
    var j :| 0 <= j < |b| && b[j] == e;
    var i' := OfTicketSplit(a, i);
    var j' := OfTicketSplit(b, j);
    SamePosition(a, TicketOf(e), i', j');
    EventAndActivityRows(t, a, i);
    EventAndActivityRows(t, b, j);
  }

  /** The tables depend on nothing but the order of each ticket's own events. */
  lemma OrderWithinTickets(t: ForwardTables, a: seq<TicketEvent>, b: seq<TicketEvent>)
    requires SameOrder(a, b)
    ensures ApplyForwardAll(t, a) == ApplyForwardAll(t, b)
  {
    var x, y := ApplyForwardAll(t, a), ApplyForwardAll(t, b);
    forall k ensures Lookup(x.tickets, k) == Lookup(y.tickets, k) {
      TicketLocality(t, a, k);
      TicketLocality(t, b, k);
    }
    forall key
      ensures Lookup(x.events, key) == Lookup(y.events, key) && Lookup(x.activity, key) == Lookup(y.activity, key)
    {
      if e :| e in a && EventKey(e) == key {
        SameRows(t, a, b, e);
      } else {
        OtherKeysUnchanged(t, a, key);
        OtherKeysUnchanged(t, b, key);
      }
    }
    SameMap(x.tickets, y.tickets);
    SameMap(x.events, y.events);
    SameMap(x.activity, y.activity);
  }

  // ---------- crash absorption ----------

  /** What decoding guarantees: only requests carry an owner and an amount. */
  predicate WellFormed(e: TicketEvent) {
    if IsRequest(e) then e.owner != "" else e.owner == "" && e.amount == 0
  }

  predicate Leading(es: seq<TicketEvent>) {
    forall i, j :: 0 <= i < j < |es| && IsRequest(es[j]) ==> IsRequest(es[i])
  }

  /** The order in which a range is applied: requests of a ticket precede its other events. */
  ghost predicate RequestsFirst(es: seq<TicketEvent>) {
    forall k :: Leading(OfTicket(es, k))
  }

  lemma RequestLeads(es: seq<TicketEvent>, k: TicketKey, e: TicketEvent)
    requires RequestsFirst(es) && e in OfTicket(es, k) && IsRequest(e)
    ensures IsRequest(OfTicket(es, k)[0])
  {
    assert Leading(OfTicket(es, k));
    var j :| 0 <= j < |OfTicket(es, k)| && OfTicket(es, k)[j] == e;
  }

  ghost predicate OneVaultPerTicket(es: seq<TicketEvent>) {
    forall e, f :: e in es && f in es && TicketOf(e) == TicketOf(f) ==> e.vault == f.vault
  }

  predicate SameRequest(a: TicketRow, b: TicketRow) {
    a.vault == b.vault && a.owner == b.owner && a.kind == b.kind && a.amount == b.amount
  }

  /** `dirty` is `clean` plus leftovers that replaying `es` will overwrite. */
  predicate Leftover(clean: Option<TicketRow>, dirty: Option<TicketRow>, es: seq<TicketEvent>) {
    if es == [] then clean == dirty
    else IsRequest(es[0]) || clean == dirty ||
         (dirty.Some? && SameRequest(dirty.value, if clean.Some? then clean.value else StepTicket(None, es[0])))
  }

  lemma LeftoverAbsorbed(clean: Option<TicketRow>, dirty: Option<TicketRow>, es: seq<TicketEvent>)
    requires Leftover(clean, dirty, es)
    ensures FoldTicket(clean, es) == FoldTicket(dirty, es)
  {
    if es == [] {
    } else {
      assert StepTicket(clean, es[0]) == StepTicket(dirty, es[0]);
    }
  }

  /** Two readings of one log: the cutoff of a fill is read anew each time. */
  predicate SameButCutoff(e: TicketEvent, f: TicketEvent) { e == f.(cutoffMs := e.cutoffMs) }

  /** The event is one of `es`, up to its cutoff. */
  predicate Covered(e: TicketEvent, es: seq<TicketEvent>) {
    exists f :: f in es && SameButCutoff(e, f)
  }

  lemma {:induction false} LeftoverGrows(clean: Option<TicketRow>, dirty: Option<TicketRow>,
                                         es: seq<TicketEvent>, junk: seq<TicketEvent>)
    requires Leftover(clean, dirty, es)
    requires forall e :: e in junk ==> Covered(e, es)
    requires forall e :: e in es ==> WellFormed(e) && e.vault == es[0].vault
    requires forall e :: e in es && IsRequest(e) ==> IsRequest(es[0])
    ensures Leftover(clean, FoldTicket(dirty, junk), es)
    decreases |junk|
  {
    if junk == [] {
    } else {
      assert junk[0] in junk && Covered(junk[0], es);
      LeftoverGrows(clean, Some(StepTicket(dirty, junk[0])), es, junk[1..]);
    }
  }

  /** Keys whose activity row a replay of `es` from `t` is sure to write. */
  ghost function Rewritten(t: ForwardTables, es: seq<TicketEvent>): set<LogKey> {
    set e | e in es && OwnerKnown(t, es, TicketOf(e)) :: EventKey(e)
  }

  ghost predicate OwnerKnown(t: ForwardTables, es: seq<TicketEvent>, k: TicketKey) {
    || (OfTicket(es, k) != [] && IsRequest(OfTicket(es, k)[0]))
    || (k in t.tickets && t.tickets[k].owner != "")
  }

  ghost predicate Absorbable(clean: ForwardTables, dirty: ForwardTables, es: seq<TicketEvent>) {
    && (forall k :: Leftover(Lookup(clean.tickets, k), Lookup(dirty.tickets, k), OfTicket(es, k)))
    && (forall key :: (forall e :: e in es ==> EventKey(e) != key) ==>
          Lookup(clean.events, key) == Lookup(dirty.events, key))
    && (forall key :: key !in Rewritten(clean, es) ==>
          Lookup(clean.activity, key) == Lookup(dirty.activity, key))
  }

  ghost predicate Replayable(es: seq<TicketEvent>) {
    RequestsFirst(es) && OneVaultPerTicket(es) && forall e :: e in es ==> WellFormed(e)
  }

  /** One leftover event more stays absorbable. */
  lemma JunkStep(clean: ForwardTables, dirty: ForwardTables, es: seq<TicketEvent>, e: TicketEvent)
    requires Absorbable(clean, dirty, es) && Replayable(es) && Covered(e, es)
    ensures Absorbable(clean, ApplyForward(dirty, e), es)
  {
    var k := TicketOf(e);
    var mine := OfTicket(es, k);
    OfTicketMembers(es, k);
    var f :| f in es && SameButCutoff(e, f);
    assert f in mine && mine[0] in mine && Covered(e, mine);
    var d' := ApplyForward(dirty, e);
    forall g | g in mine && IsRequest(g) ensures IsRequest(mine[0]) { RequestLeads(es, k, g); }
    forall k' ensures Leftover(Lookup(clean.tickets, k'), Lookup(d'.tickets, k'), OfTicket(es, k')) {
      if k' == k {
        LeftoverGrows(Lookup(clean.tickets, k), Lookup(dirty.tickets, k), mine, [e]);
        assert [e][1..] == [];
        assert FoldTicket(Lookup(dirty.tickets, k), [e]) == Lookup(d'.tickets, k);
      }
    }
    var owner := OwnerFor(Lookup(dirty.tickets, k), e);
    if owner != "" {
      assert OwnerKnown(clean, es, k);
      assert EventKey(f) in Rewritten(clean, es);
    }
  }

  /** What a replay is sure to write, split into its first event and the rest. */
  lemma RewrittenStep(t: ForwardTables, es: seq<TicketEvent>, key: LogKey)
    requires es != [] && Replayable(es) && key in Rewritten(t, es)
    ensures key in Rewritten(ApplyForward(t, es[0]), es[1..]) ||
            (key == EventKey(es[0]) && OwnerFor(Lookup(t.tickets, TicketOf(es[0])), es[0]) != "")
  {
    var e, rest := es[0], es[1..];
    var f :| f in es && OwnerKnown(t, es, TicketOf(f)) && EventKey(f) == key;
    assert e in es;
    if f in rest {
      if TicketOf(f) == TicketOf(e) {
        assert OfTicket(es, TicketOf(e))[0] == e;
      }
      assert OwnerKnown(ApplyForward(t, e), rest, TicketOf(f));
    } else {
      assert f == e;
    }
  }

  lemma ReplayableTail(es: seq<TicketEvent>)
    requires es != [] && Replayable(es)
    ensures Replayable(es[1..])
  {
    var rest := es[1..];
    assert forall f :: f in rest ==> f in es;
    forall k ensures Leading(OfTicket(rest, k)) {
      assert Leading(OfTicket(es, k));
      if TicketOf(es[0]) == k {
        assert forall i :: 0 <= i < |OfTicket(rest, k)| ==> OfTicket(rest, k)[i] == OfTicket(es, k)[i + 1];
      }
    }
  }

  /** The next event of the range brings the two rows of its ticket together. */
  lemma ReplayTickets(clean: ForwardTables, dirty: ForwardTables, es: seq<TicketEvent>, k: TicketKey)
    requires es != [] && Absorbable(clean, dirty, es)
    ensures Leftover(Lookup(ApplyForward(clean, es[0]).tickets, k), Lookup(ApplyForward(dirty, es[0]).tickets, k),
                     OfTicket(es[1..], k))
    ensures TicketOf(es[0]) == k ==>
              OwnerFor(Lookup(clean.tickets, k), es[0]) == OwnerFor(Lookup(dirty.tickets, k), es[0]) ||
              (!IsRequest(es[0]) && Lookup(clean.tickets, k).None? && Lookup(dirty.tickets, k).Some? &&
               Lookup(dirty.tickets, k).value.owner == es[0].owner)
  {
    assert Leftover(Lookup(clean.tickets, k), Lookup(dirty.tickets, k), OfTicket(es, k));
    if TicketOf(es[0]) == k {
      assert StepTicket(Lookup(clean.tickets, k), es[0]) == StepTicket(Lookup(dirty.tickets, k), es[0]);
    }
  }

  /** Applying the next event to both sides keeps them absorbable by the rest. */
  lemma ReplayStep(clean: ForwardTables, dirty: ForwardTables, es: seq<TicketEvent>)
    requires es != [] && Absorbable(clean, dirty, es) && Replayable(es)
    ensures Absorbable(ApplyForward(clean, es[0]), ApplyForward(dirty, es[0]), es[1..])
  {
    var e, rest := es[0], es[1..];
    var c', d' := ApplyForward(clean, e), ApplyForward(dirty, e);
    assert e in es && forall f :: f in es ==> f == e || f in rest;
    forall k ensures Leftover(Lookup(c'.tickets, k), Lookup(d'.tickets, k), OfTicket(rest, k)) {
      ReplayTickets(clean, dirty, es, k);
    }
    forall key | forall f :: f in rest ==> EventKey(f) != key
      ensures Lookup(c'.events, key) == Lookup(d'.events, key)
    {
      if key != EventKey(e) {
        assert Lookup(clean.events, key) == Lookup(dirty.events, key);
      }
    }
    ReplayTickets(clean, dirty, es, TicketOf(e));
    forall key | key !in Rewritten(c', rest)
      ensures Lookup(c'.activity, key) == Lookup(d'.activity, key)
    {
      if key in Rewritten(clean, es) {
        RewrittenStep(clean, es, key);
      }
    }
  }

  lemma {:induction false} AbsorbableJunk(clean: ForwardTables, dirty: ForwardTables, es: seq<TicketEvent>,
                                          junk: seq<TicketEvent>)
    requires Absorbable(clean, dirty, es) && Replayable(es)
    requires forall e :: e in junk ==> Covered(e, es)
    ensures Absorbable(clean, ApplyForwardAll(dirty, junk), es)
    decreases |junk|
  {
    if junk == [] {
    } else {
      assert junk[0] in junk;
      JunkStep(clean, dirty, es, junk[0]);
      AbsorbableJunk(clean, ApplyForward(dirty, junk[0]), es, junk[1..]);
    }
  }

  lemma {:induction false} AbsorbableReplay(clean: ForwardTables, dirty: ForwardTables, es: seq<TicketEvent>)
    requires Absorbable(clean, dirty, es) && Replayable(es)
    ensures ApplyForwardAll(clean, es) == ApplyForwardAll(dirty, es)
    decreases |es|
  {
    if es == [] {
      SameTables(clean, dirty);
    } else {
      ReplayStep(clean, dirty, es);
      ReplayableTail(es);
      AbsorbableReplay(ApplyForward(clean, es[0]), ApplyForward(dirty, es[0]), es[1..]);
    }
  }

  lemma SameTables(a: ForwardTables, b: ForwardTables)
    requires Absorbable(a, b, [])
    ensures a == b
  {
    forall k ensures Lookup(a.tickets, k) == Lookup(b.tickets, k) {
      assert Leftover(Lookup(a.tickets, k), Lookup(b.tickets, k), OfTicket([], k));
    }
    assert Rewritten(a, []) == {};
    SameMap(a.tickets, b.tickets);
    SameMap(a.events, b.events);
    SameMap(a.activity, b.activity);
  }

  /** Whatever part of a range earlier, aborted attempts have applied, with whatever cutoffs they read,
      applying the whole range gives the tables that the whole range alone would have given. */
  lemma CrashAbsorption(t: ForwardTables, junk: seq<TicketEvent>, es: seq<TicketEvent>)
    requires Replayable(es)
    requires forall e :: e in junk ==> Covered(e, es)
    ensures ApplyForwardAll(ApplyForwardAll(t, junk), es) == ApplyForwardAll(t, es)
  {
    AbsorbableJunk(t, t, es, junk);
    AbsorbableReplay(t, ApplyForwardAll(t, junk), es);
  }
}
