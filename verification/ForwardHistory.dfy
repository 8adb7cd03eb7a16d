/** Chronological histories of forward tickets, their meaning, and why reading a block range kind by
    kind instead of in chain order loses nothing. */
module ForwardHistory {
  import opened Options
  import opened IndexerTypes
  import opened ForwardTickets

  // ---------- selecting logs, keeping chain order ----------

  datatype Selector =
    | InBlocks(from: int, to: int)
    | OfId(id: nat)
    | OfKind(kind: EventKind)
    | OfTicketId(queue: Address, id: nat)
    | InQueue(queue: Address, from: int, to: int)
    | InTicket(queue: Address, id: nat, from: int, to: int)

  predicate Matches(l: ForwardLog, s: Selector) {
    match s
    case InBlocks(from, to) => from <= l.block <= to
    case OfId(id) => l.ticketId == id
    case OfKind(kind) => KindOf(l.args) == kind
    case OfTicketId(queue, id) => l.queue == queue && l.ticketId == id
    case InQueue(queue, from, to) => l.queue == queue && from <= l.block <= to
    case InTicket(queue, id, from, to) => l.queue == queue && l.ticketId == id && from <= l.block <= to
  }

  function Select(ls: seq<ForwardLog>, s: Selector): seq<ForwardLog> {
    if ls == [] then []
    else if Matches(ls[0], s) then [ls[0]] + Select(ls[1..], s)
    else Select(ls[1..], s)
  }

  lemma {:induction false} SelectMembers(ls: seq<ForwardLog>, s: Selector)
    ensures forall l :: l in Select(ls, s) <==> l in ls && Matches(l, s)
  {
    if ls == [] {
    } else {
      SelectMembers(ls[1..], s);
      assert forall l :: l in ls <==> l == ls[0] || l in ls[1..];
    }
  }

  lemma {:induction false} SelectConcat(a: seq<ForwardLog>, b: seq<ForwardLog>, s: Selector)
    ensures Select(a + b, s) == Select(a, s) + Select(b, s)
    decreases |a|
  {
    if a == [] {
      assert a + b == b;
    } else {
      assert (a + b)[1..] == a[1..] + b && (a + b)[0] == a[0];
      SelectConcat(a[1..], b, s);
      assert [a[0]] + (Select(a[1..], s) + Select(b, s)) == [a[0]] + Select(a[1..], s) + Select(b, s);
    }
  }

  /** Selecting twice is selecting once by both conditions. */
  lemma {:induction false} SelectTwice(ls: seq<ForwardLog>, s: Selector, t: Selector, u: Selector)
    requires forall l :: l in ls ==> (Matches(l, u) <==> Matches(l, s) && Matches(l, t))
    ensures Select(Select(ls, s), t) == Select(ls, u)
  {
    if ls == [] {
    } else {
      var tl := ls[1..];
      assert ls[0] in ls;
      SelectTwice(tl, s, t, u);
      if Matches(ls[0], s) {
        assert ([ls[0]] + Select(tl, s))[1..] == Select(tl, s);
      }
    }
  }

  lemma {:induction false} SelectNone(ls: seq<ForwardLog>, s: Selector)
    requires forall l :: l in ls ==> !Matches(l, s)
    ensures Select(ls, s) == []
  {
    if ls == [] {
    } else {
      assert ls[0] in ls;
      SelectNone(ls[1..], s);
    }
  }

  lemma {:induction false} SelectAll(ls: seq<ForwardLog>, s: Selector)
    requires forall l :: l in ls ==> Matches(l, s)
    ensures Select(ls, s) == ls
  {
    if ls == [] {
    } else {
      assert ls[0] in ls;
      SelectAll(ls[1..], s);
    }
  }

  predicate Chronological(ls: seq<ForwardLog>) {
    forall i, j :: 0 <= i < j < |ls| ==> ls[i].block <= ls[j].block
  }

  lemma {:induction false} SelectChronological(ls: seq<ForwardLog>, s: Selector)
    requires Chronological(ls)
    ensures Chronological(Select(ls, s))
  {
    if ls == [] {
    } else {
      SelectChronological(ls[1..], s);
      SelectMembers(ls[1..], s);
      forall l | l in Select(ls[1..], s) ensures ls[0].block <= l.block {
        var j :| 0 <= j < |ls[1..]| && ls[1..][j] == l;
        assert ls[j + 1] == l;
      }
    }
  }

  /** Adjacent block ranges of a chronological log are adjacent pieces of it. */
  lemma {:induction false} RangesConcat(ls: seq<ForwardLog>, from: int, mid: int, to: int)
    requires Chronological(ls) && from <= mid + 1 && mid <= to
    ensures Select(ls, InBlocks(from, to)) == Select(ls, InBlocks(from, mid)) + Select(ls, InBlocks(mid + 1, to))
  {
    if ls == [] {
    } else {
      RangesConcat(ls[1..], from, mid, to);
      if ls[0].block > mid {
        forall l | l in ls[1..] ensures !Matches(l, InBlocks(from, mid)) {
          var j :| 0 <= j < |ls[1..]| && ls[1..][j] == l;
          assert ls[j + 1] == l;
        }
        SelectNone(ls[1..], InBlocks(from, mid));
      }
    }
  }

  // ---------- kind-major reading order ----------

  /** The order in which getForwardQueueLogs returns a range: kind by kind. */
  function KindMajor(ls: seq<ForwardLog>): seq<ForwardLog> {
    Select(ls, OfKind(CreateRequested)) + Select(ls, OfKind(RedeemRequested)) +
    Select(ls, OfKind(PartialFill)) + Select(ls, OfKind(Settled)) + Select(ls, OfKind(Cancelled))
  }

  lemma KindMajorMembers(ls: seq<ForwardLog>)
    ensures forall l :: l in KindMajor(ls) <==> l in ls
  {
    SelectMembers(ls, OfKind(CreateRequested));
    SelectMembers(ls, OfKind(RedeemRequested));
    SelectMembers(ls, OfKind(PartialFill));
    SelectMembers(ls, OfKind(Settled));
    SelectMembers(ls, OfKind(Cancelled));
  }

  lemma {:induction false} SelectKind(ls: seq<ForwardLog>, s: Selector, k: EventKind)
    ensures Select(Select(ls, OfKind(k)), s) == Select(Select(ls, s), OfKind(k))
  {
    if ls == [] {
    } else {
      var tl := ls[1..];
      SelectKind(tl, s, k);
      assert ([ls[0]] + Select(tl, s))[1..] == Select(tl, s);
      assert ([ls[0]] + Select(tl, OfKind(k)))[1..] == Select(tl, OfKind(k));
    }
  }

  lemma KindMajorSelect(ls: seq<ForwardLog>, s: Selector)
    ensures Select(KindMajor(ls), s) == KindMajor(Select(ls, s))
  {
    var c, r, p := Select(ls, OfKind(CreateRequested)), Select(ls, OfKind(RedeemRequested)),
      Select(ls, OfKind(PartialFill));
    var t, x := Select(ls, OfKind(Settled)), Select(ls, OfKind(Cancelled));
    SelectConcat(c + r + p + t, x, s);
    SelectConcat(c + r + p, t, s);
    SelectConcat(c + r, p, s);
    SelectConcat(c, r, s);
    SelectKind(ls, s, CreateRequested);
    SelectKind(ls, s, RedeemRequested);
    SelectKind(ls, s, PartialFill);
    SelectKind(ls, s, Settled);
    SelectKind(ls, s, Cancelled);
  }

  // ---------- the ticket grammar ----------

  predicate IsRequestLog(l: ForwardLog) { l.args.CreateArgs? || l.args.RedeemArgs? }
  predicate IsTerminalLog(l: ForwardLog) { l.args.SettledArgs? || l.args.CancelledArgs? }

  /** A contiguous piece of one ticket's history: a request can only open it, a settlement or a
      cancellation can only close it. */
  predicate Fragment(h: seq<ForwardLog>) {
    && (forall i :: 0 <= i < |h| && IsRequestLog(h[i]) ==> i == 0)
    && (forall i :: 0 <= i < |h| && IsTerminalLog(h[i]) ==> i == |h| - 1)
  }

  /** A whole history so far: the request, fills, and at most one settlement or cancellation. */
  predicate Grammar(h: seq<ForwardLog>) {
    Fragment(h) && (h != [] ==> IsRequestLog(h[0]) && h[0].args.owner != "")
  }

  lemma SelectCons(l: ForwardLog, tl: seq<ForwardLog>, s: Selector)
    ensures Select([l] + tl, s) == if Matches(l, s) then [l] + Select(tl, s) else Select(tl, s)
  {
    assert ([l] + tl)[1..] == tl;
  }

  lemma SelectFirst(l: ForwardLog, tl: seq<ForwardLog>, s: Selector)
    requires Select(tl, s) == []
    ensures Select([l] + tl, s) == if Matches(l, s) then [l] else []
  {
    SelectCons(l, tl, s);
  }

  lemma KindMajorOne(l: ForwardLog)
    ensures KindMajor([l]) == [l]
  {
    assert [l][1..] == [];
    assert forall s :: Select([l], s) == if Matches(l, s) then [l] else [];
  }

  lemma ConsPieces(l: ForwardLog, p: seq<ForwardLog>, t: seq<ForwardLog>, x: seq<ForwardLog>)
    ensures [l] + [] + p + t + x == [l] + ([] + [] + p + t + x)
    ensures [] + [l] + p + t + x == [l] + ([] + [] + p + t + x)
    ensures [] + [] + ([l] + p) + t + x == [l] + ([] + [] + p + t + x)
  {
  }

  /** A log in front of logs none of which is of an earlier kind. */
  lemma KindMajorCons(l: ForwardLog, tl: seq<ForwardLog>)
    requires Select(tl, OfKind(CreateRequested)) == [] && Select(tl, OfKind(RedeemRequested)) == []
    requires !IsTerminalLog(l)
    ensures KindMajor([l] + tl) == [l] + KindMajor(tl)
  {
    SelectFirst(l, tl, OfKind(CreateRequested));
    SelectFirst(l, tl, OfKind(RedeemRequested));
    SelectCons(l, tl, OfKind(PartialFill));
    SelectCons(l, tl, OfKind(Settled));
    SelectCons(l, tl, OfKind(Cancelled));
    ConsPieces(l, Select(tl, OfKind(PartialFill)), Select(tl, OfKind(Settled)), Select(tl, OfKind(Cancelled)));
  }

  /** On one ticket, reading kind by kind is reading in chain order. */
  lemma {:induction false} KindMajorOfFragment(h: seq<ForwardLog>)
    requires Fragment(h)
    ensures KindMajor(h) == h
  {
    if h == [] {
    } else {
      var tl := h[1..];
      forall l | l in tl ensures !IsRequestLog(l) {
        var j :| 0 <= j < |tl| && tl[j] == l;
        assert h[j + 1] == l;
      }
      assert forall i :: 0 <= i < |tl| ==> tl[i] == h[i + 1];
      KindMajorOfFragment(tl);
      assert h == [h[0]] + tl;
      if IsTerminalLog(h[0]) {
        assert tl == [];
        KindMajorOne(h[0]);
      } else {
        SelectNone(tl, OfKind(CreateRequested));
        SelectNone(tl, OfKind(RedeemRequested));
        KindMajorCons(h[0], tl);
      }
    }
  }

  lemma FragmentOfPiece(a: seq<ForwardLog>, b: seq<ForwardLog>, c: seq<ForwardLog>)
    requires Fragment(a + b + c)
    ensures Fragment(b)
  {
    var h := a + b + c;
    forall i | 0 <= i < |b| ensures h[|a| + i] == b[i] {}
  }

  /** Kind-major processing preserves meaning: for logs whose tickets obey the grammar, each
      ticket meets its events in exactly the chain's order. */
  lemma KindMajorKeepsTicketOrder(ls: seq<ForwardLog>, id: nat)
    requires Fragment(Select(ls, OfId(id)))
    ensures Select(KindMajor(ls), OfId(id)) == Select(ls, OfId(id))
  {
    KindMajorSelect(ls, OfId(id));
    KindMajorOfFragment(Select(ls, OfId(id)));
  }

  // ---------- what a history means, without folding ----------

  function AmountOf(a: LogArgs): nat {
    match a
    case CreateArgs(_, cash, _) => cash
    case RedeemArgs(_, shares, _) => shares
    case _ => 0
  }

  function OpenAmount(a: LogArgs): nat {
    match a
    case FillArgs(_, remaining, _) => remaining
    case _ => AmountOf(a)
  }

  function StatusAfter(a: LogArgs): TicketStatus {
    match a
    case CreateArgs(_, _, _) => PendingTicket
    case RedeemArgs(_, _, _) => PendingTicket
    case FillArgs(_, _, _) => PartialTicket
    case SettledArgs => SettledTicket
    case CancelledArgs => CancelledTicket
  }

  function CutoffMs(l: ForwardLog): nat {
    match l.args
    case CreateArgs(_, _, cutoff) => cutoff * 1000
    case RedeemArgs(_, _, cutoff) => cutoff * 1000
    case FillArgs(_, _, cutoffMs) => cutoffMs
    case SettledArgs => l.timestamp * 1000
    case CancelledArgs => l.timestamp * 1000
  }

  /** Who asked for what comes from the first log; how far it got comes from the last one. */
  function TicketMeaning(vault: Address, h: seq<ForwardLog>): Option<TicketRow>
    requires Grammar(h)
  {
    if h == [] then None else
      var first, last := h[0], h[|h| - 1];
      Some(TicketRow(vault, first.args.owner,
                     if first.args.RedeemArgs? then Redeem else Create,
                     AmountOf(first.args), OpenAmount(last.args), StatusAfter(last.args), CutoffMs(last)))
  }

  lemma DecodeAllConcat(v: Address, a: seq<ForwardLog>, b: seq<ForwardLog>)
    ensures DecodeAll(v, a + b) == DecodeAll(v, a) + DecodeAll(v, b)
  {
  }

  lemma MeaningStep(v: Address, pre: seq<ForwardLog>, last: ForwardLog)
    requires Grammar(pre) && Grammar(pre + [last])
    ensures Some(StepTicket(TicketMeaning(v, pre), Decode(v, last))) == TicketMeaning(v, pre + [last])
  {
    assert (pre + [last])[|pre|] == last;
    if pre != [] {
      assert (pre + [last])[0] == pre[0];
      assert !IsRequestLog(last);
    }
  }

  lemma FoldOne(row: Option<TicketRow>, v: Address, l: ForwardLog)
    ensures FoldTicket(row, DecodeAll(v, [l])) == Some(StepTicket(row, Decode(v, l)))
  {
    assert DecodeAll(v, [l]) == [Decode(v, l)];
    assert [Decode(v, l)][1..] == [];
  }

  /** The chronological fold of a grammatical history is its meaning. */
  lemma {:induction false} FoldIsMeaning(v: Address, h: seq<ForwardLog>)
    requires Grammar(h)
    ensures FoldTicket(None, DecodeAll(v, h)) == TicketMeaning(v, h)
    decreases |h|
  {
    if h == [] {
    } else {
      var pre, last := h[..|h| - 1], h[|h| - 1];
      assert h == pre + [last];
      FoldIsMeaning(v, pre);
      MeaningStep(v, pre, last);
      DecodeAllConcat(v, pre, [last]);
      FoldTicketConcat(None, DecodeAll(v, pre), DecodeAll(v, [last]));
      FoldOne(TicketMeaning(v, pre), v, last);
    }
  }

  /** The upserts are idempotent for a whole range only: writing one log of a history again leaves
      the row alone exactly when that log settles the ticket the way the last one did. */
  lemma SingleReplayIsNoOpIff(v: Address, h: seq<ForwardLog>, i: nat)
    requires Grammar(h) && i < |h|
    ensures var row := FoldTicket(None, DecodeAll(v, h));
            Some(StepTicket(row, Decode(v, h[i]))) == row <==>
              && StatusAfter(h[i].args) == StatusAfter(h[|h| - 1].args)
              && OpenAmount(h[i].args) == OpenAmount(h[|h| - 1].args)
              && CutoffMs(h[i]) == CutoffMs(h[|h| - 1])
  {
    FoldIsMeaning(v, h);
  }

  /** In particular, replaying the request of a ticket that has got further reopens it for the full
      amount. */
  lemma RequestReplayReopens(v: Address, h: seq<ForwardLog>)
    requires Grammar(h) && |h| > 1
    ensures var row := FoldTicket(None, DecodeAll(v, h));
            row.Some? && row.value.status != PendingTicket &&
            StepTicket(row, Decode(v, h[0])) ==
            row.value.(status := PendingTicket, remaining := row.value.amount, cutoffMs := CutoffMs(h[0]))
  {
    FoldIsMeaning(v, h);
  }
}
