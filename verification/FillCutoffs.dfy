/** Cutoffs of partial fills. The fill event does not carry one: the reader asks the queue for the
    ticket's cutoff whenever it decodes the log, so every tick may see another. */
module FillCutoffs {
  import opened Options
  import opened IndexerTypes
  import opened ForwardTickets
  import opened ForwardHistory

  /** What the queue answers while a log is decoded; 0 when the read fails. */
  function CutoffRead(cutoffs: map<LogKey, nat>, key: LogKey): nat {
    if key in cutoffs then cutoffs[key] else 0
  }

  /** What the chain says of a log, without the cutoff of a fill. */
  function Blank(l: ForwardLog): ForwardLog {
    if l.args.FillArgs? then l.(args := l.args.(cutoffMs := 0)) else l
  }

  /** The same logs, up to the cutoffs of fills. */
  predicate Alike(a: seq<ForwardLog>, b: seq<ForwardLog>) {
    |a| == |b| && forall i :: 0 <= i < |a| ==> Blank(a[i]) == Blank(b[i])
  }

  /** The log as a tick sees it that reads these cutoffs. */
  function SeenLog(l: ForwardLog, cutoffs: map<LogKey, nat>): ForwardLog {
    if l.args.FillArgs? then l.(args := l.args.(cutoffMs := CutoffRead(cutoffs, LogKeyOf(l)))) else l
  }

  function Seen(ls: seq<ForwardLog>, cutoffs: map<LogKey, nat>): (r: seq<ForwardLog>)
    ensures |r| == |ls| && forall i :: 0 <= i < |ls| ==> r[i] == SeenLog(ls[i], cutoffs)
    ensures Alike(ls, r)
  {
    seq(|ls|, i requires 0 <= i < |ls| => SeenLog(ls[i], cutoffs))
  }

  lemma {:induction false} SelectAlike(a: seq<ForwardLog>, b: seq<ForwardLog>, s: Selector)
    requires Alike(a, b)
    ensures Alike(Select(a, s), Select(b, s))
  {
    if a == [] {
    } else {
      assert Blank(a[0]) == Blank(b[0]);
      SelectAlike(a[1..], b[1..], s);
    }
  }

  /** Lists that agree wherever a selector picks give the same selection. */
  lemma {:induction false} SelectSame(a: seq<ForwardLog>, b: seq<ForwardLog>, s: Selector)
    requires |a| == |b|
    requires forall i :: 0 <= i < |a| && (Matches(a[i], s) || Matches(b[i], s)) ==> a[i] == b[i]
    ensures Select(a, s) == Select(b, s)
  {
    if a == [] {
    } else {
      assert Matches(a[0], s) || Matches(b[0], s) ==> a[0] == b[0];
      SelectSame(a[1..], b[1..], s);
    }
  }

  lemma GrammarAlike(a: seq<ForwardLog>, b: seq<ForwardLog>)
    requires Grammar(a) && Alike(a, b)
    ensures Grammar(b)
  {
    forall i | 0 <= i < |b| ensures KindOf(b[i].args) == KindOf(a[i].args) {
      assert Blank(a[i]) == Blank(b[i]);
    }
    if b != [] {
      assert Blank(a[0]) == Blank(b[0]);
    }
  }

  lemma DecodeAlike(v: Address, a: ForwardLog, b: ForwardLog)
    requires Blank(a) == Blank(b)
    ensures SameButCutoff(Decode(v, a), Decode(v, b))
  {
  }

  // ---------- views of the logs ----------

  /** Logs up to block `c` as seen before, later ones as seen now. */
  function Merge(before: seq<ForwardLog>, now: seq<ForwardLog>, c: int): (r: seq<ForwardLog>)
    requires Alike(before, now)
    ensures |r| == |now| && forall i :: 0 <= i < |r| ==> r[i] == if now[i].block <= c then before[i] else now[i]
    ensures Alike(before, r) && Alike(now, r)
  {
    seq(|now|, i requires 0 <= i < |now| => if now[i].block <= c then before[i] else now[i])
  }

  lemma AlikeTrans(a: seq<ForwardLog>, b: seq<ForwardLog>, c: seq<ForwardLog>)
    requires Alike(a, b) && Alike(b, c)
    ensures Alike(a, c) && Alike(c, a)
  {
    forall i | 0 <= i < |a| ensures Blank(a[i]) == Blank(c[i]) {
      assert Blank(a[i]) == Blank(b[i]);
    }
  }
}
