/** Enabling cash settlement for a vault: a persisted row, the operations one handler run performs,
    a fault at any of them, submitted writes that never take effect, and everything that can follow. */
module ForwardEnable {
  import opened FixedPoint
  import opened Options

  type Address = nat

  datatype EnableParams = EnableParams(minPrints: nat, twapWindowSec: nat, twapBandBps: nat, pegBandBps: nat,
                                       pegMaxAgeSec: nat, cutoffDelaySec: nat, spreadBps: nat, capacityBps: nat,
                                       keeperTip: nat, keeperBps: nat)

  datatype Status = Pending | Wiring | Live | Failed

  /** The forward-queue-config row of the vault. */
  datatype ConfigRow = ConfigRow(status: Status, step: Option<string>, error: Option<string>,
                                 queueAddress: Option<Address>, params: EnableParams)

  /** The price gate's settings, as the queue names them. */
  datatype GateParams = GateParams(minN: nat, win: nat, twBps: nat, pegBps: nat, pegMaxAge: nat)

  /** What has been set on one queue. */
  datatype QueueConfig = QueueConfig(gateParams: Option<GateParams>,
                                     g1Refs: Option<(string, string)>, keeperTip: Option<nat>, spreadBps: Option<nat>,
                                     capacityBps: Option<nat>, cutoffDelaySec: Option<nat>)

  const FRESH_QUEUE := QueueConfig(None, None, None, None, None, None)

  /** Queues deployed for this vault, by address; executors and reward cap of the keeper module;
      settlers and keeper share of the vault; price sources by token. */
  datatype ChainState = ChainState(queues: seq<QueueConfig>, executors: set<Address>, maxRewardPerCall: nat,
                                   settlers: set<Address>, keeperBps: nat, sources: map<string, seq<string>>)

  /** Deployment constants and the vault's kind. */
  datatype Setup = Setup(aggregator: string, weekday: string, weekend: string, isRegistry: bool)

  datatype Op =
    | Mark(step: string)
    | ReadChain
    | AddFirst(token: string)
    | AddSecond(token: string)
    | Deploy
    | Persist
    | SetGateParams | SetG1Refs | SetKeeperTip | SetSpreadBps | SetCapacity | SetCutoffDelay
    | SetExecutor | SetMaxReward
    | SetSettler
    | SetKeeperBps
    | GoLive
    | Refresh

  /** Row and chain, and the handler's local variables: its queue, and whether ensureSources found no
      source for the token at hand. */
  datatype Machine = Machine(row: ConfigRow, chain: ChainState, queue: Option<Address>, adding: bool)

  function SourcesOf(c: ChainState, token: string): seq<string> {
    if token in c.sources then c.sources[token] else []
  }

  function AddSource(c: ChainState, token: string, source: string): ChainState {
    c.(sources := c.sources[token := SourcesOf(c, token) + [source]])
  }

  /** A status write; the queue address goes along once it is known. */
  function MarkRow(m: Machine, status: Status, step: Option<string>): Machine {
    var queueAddress := if m.queue.Some? then m.queue else m.row.queueAddress;
    m.(row := m.row.(status := status, step := step, queueAddress := queueAddress))
  }

  predicate HasQueue(m: Machine) { m.queue.Some? && m.queue.value < |m.chain.queues| }

  function QueueOf(m: Machine): QueueConfig { if HasQueue(m) then m.chain.queues[m.queue.value] else FRESH_QUEUE }

  function WithQueue(m: Machine, c: QueueConfig): Machine {
    if HasQueue(m) then m.(chain := m.chain.(queues := m.chain.queues[m.queue.value := c])) else m
  }

  function GateParamsOf(p: EnableParams): GateParams {
    GateParams(p.minPrints, p.twapWindowSec, p.twapBandBps, p.pegBandBps, p.pegMaxAgeSec)
  }

  /** The effect of one operation that succeeds. */
  function ApplyOp(op: Op, u: Setup, m: Machine): Machine {
    var p, c := m.row.params, QueueOf(m);
    match op
    case Mark(step) => MarkRow(m, Wiring, Some(step))
    case ReadChain => m
    case AddFirst(t) =>
      if SourcesOf(m.chain, t) == [] then m.(chain := AddSource(m.chain, t, u.weekday), adding := true)
      else m.(adding := false)
    case AddSecond(t) => if m.adding then m.(chain := AddSource(m.chain, t, u.weekend)) else m
    case Deploy => m.(chain := m.chain.(queues := m.chain.queues + [FRESH_QUEUE]), queue := Some(|m.chain.queues|))
    case Persist => MarkRow(m, Wiring, Some("config"))
    case SetGateParams => WithQueue(m, c.(gateParams := Some(GateParamsOf(p))))
    case SetG1Refs => WithQueue(m, c.(g1Refs := Some((u.aggregator, u.weekday))))
    case SetKeeperTip => WithQueue(m, c.(keeperTip := Some(p.keeperTip)))
    case SetSpreadBps => WithQueue(m, c.(spreadBps := Some(p.spreadBps)))
    case SetCapacity => WithQueue(m, c.(capacityBps := Some(p.capacityBps)))
    case SetCutoffDelay => WithQueue(m, c.(cutoffDelaySec := Some(p.cutoffDelaySec)))
    case SetExecutor =>
      if m.queue.Some? then m.(chain := m.chain.(executors := m.chain.executors + {m.queue.value})) else m
    case SetMaxReward =>
      if m.chain.maxRewardPerCall == 0 then m.(chain := m.chain.(maxRewardPerCall := MAX_UINT256)) else m
    case SetSettler =>
      if m.queue.Some? then m.(chain := m.chain.(settlers := m.chain.settlers + {m.queue.value})) else m
    case SetKeeperBps => m.(chain := m.chain.(keeperBps := p.keeperBps))
    case GoLive => MarkRow(m, Live, m.row.step)
    case Refresh => m
  }

  /** Writes that the handler only submits: it gets a hash and does not wait for the receipt. */
  predicate Submitted(op: Op) {
    match op
    case AddFirst(_) => true
    case AddSecond(_) => true
    case SetGateParams => true
    case SetG1Refs => true
    case SetKeeperTip => true
    case SetSpreadBps => true
    case SetCapacity => true
    case SetCutoffDelay => true
    case SetExecutor => true
    case SetMaxReward => true
    case SetSettler => true
    case SetKeeperBps => true
    case _ => false
  }

  /** An operation that does not throw. A submitted write may still be dropped or revert: the handler
      goes on as if it had taken effect, and the chain stays as it was. */
  function Perform(op: Op, gone: bool, u: Setup, m: Machine): Machine {
    if gone && Submitted(op) then ApplyOp(op, u, m).(chain := m.chain) else ApplyOp(op, u, m)
  }

  /** The positions of a run whose writes are lost, seen from the operation at position `at`. */
  datatype Losses = Losses(at: nat, lost: set<nat>) {
    predicate Gone(i: nat) { at + i in lost }
    function After(k: nat): Losses { Losses(at + k, lost) }
  }

  function PerformAll(ops: seq<Op>, x: Losses, u: Setup, m: Machine): Machine {
    if ops == [] then m
    else
      var n := |ops| - 1;
      Perform(ops[n], x.Gone(n), u, PerformAll(ops[..n], x, u, m))
  }

  // ---------- the script of a run ----------

  function SourceOps(tokens: seq<string>): seq<Op> {
    if tokens == [] then []
    else SourceOps(tokens[..|tokens| - 1]) + [AddFirst(tokens[|tokens| - 1]), AddSecond(tokens[|tokens| - 1])]
  }

  /** Up to a known queue. A persisted address is adopted; otherwise a queue is deployed and persisted. */
  function QueueOps(tokens: seq<string>, existing: Option<Address>): seq<Op> {
    [Mark("start"), ReadChain, Mark("sources")] + SourceOps(tokens) + [Mark("deploy")]
    + if existing.None? then [Deploy, Persist] else []
  }

  const SETTINGS := [SetGateParams, SetG1Refs, SetKeeperTip, SetSpreadBps, SetCapacity, SetCutoffDelay]
  const RIGHTS := [Mark("executor"), SetExecutor, SetMaxReward]

  function SettlerOps(u: Setup): seq<Op> {
    if u.isRegistry then [Mark("settler"), SetSettler] else []
  }

  function ShareOps(p: EnableParams): seq<Op> {
    if p.keeperBps > 0 then [Mark("keeperBps"), SetKeeperBps] else []
  }

  /** The writes that wire the queue. */
  function WireOps(u: Setup, p: EnableParams): seq<Op> {
    SETTINGS + RIGHTS + SettlerOps(u) + ShareOps(p)
  }

  function Script(u: Setup, tokens: seq<string>, row: ConfigRow): seq<Op> {
    QueueOps(tokens, row.queueAddress) + WireOps(u, row.params) + [GoLive, Refresh]
  }

  // ---------- events ----------

  /** What goes wrong in a run: operation number `at` throws, after or before its effect; the catch
      block records the failure, or the process dies first. */
  datatype Fault = Fault(at: nat, applied: bool, caught: bool, message: string)

  /** A request, or a run over these held tokens, with a fault or none, losing the writes at these
      positions. */
  datatype Event = Enable(params: EnableParams) | Job(tokens: seq<string>, fault: Option<Fault>, lost: set<nat>)

  datatype World = World(row: Option<ConfigRow>, chain: ChainState)

  /** How many operations of a script of `n` take effect. */
  function Effective(fault: Option<Fault>, n: nat): (k: nat)
    ensures k <= n
  {
    if fault.None? || fault.value.at >= n then n
    else if fault.value.applied then fault.value.at + 1
    else fault.value.at
  }

  predicate Caught(fault: Option<Fault>, n: nat) { fault.Some? && fault.value.at < n && fault.value.caught }

  function Start(row: ConfigRow, chain: ChainState): Machine { Machine(row, chain, row.queueAddress, false) }

  /** The machine after the first `k` operations of a run's script. */
  function Reach(u: Setup, row: ConfigRow, chain: ChainState, tokens: seq<string>, k: nat, lost: set<nat>): Machine
    requires k <= |Script(u, tokens, row)|
  {
    PerformAll(Script(u, tokens, row)[..k], Losses(0, lost), u, Start(row, chain))
  }

  /** A run of the handler on a row. */
  function RunJob(u: Setup, row: ConfigRow, chain: ChainState, tokens: seq<string>, fault: Option<Fault>,
                  lost: set<nat>)
    : (ConfigRow, ChainState)
  {
    var n := |Script(u, tokens, row)|;
    var m := Reach(u, row, chain, tokens, Effective(fault, n), lost);
    (if Caught(fault, n) then m.row.(status := Failed, error := Some(fault.value.message)) else m.row, m.chain)
  }

  predicate Refused(row: Option<ConfigRow>) {
    row.Some? && (row.value.status == Live || row.value.status == Wiring)
  }

  function Enabled(row: Option<ConfigRow>, p: EnableParams): ConfigRow {
    ConfigRow(Pending, None, None, if row.Some? then row.value.queueAddress else None, p)
  }

  /** Runs are serial and start from the row as it is. */
  function Step(u: Setup, w: World, e: Event): World {
    match e
    case Enable(p) => if Refused(w.row) then w else w.(row := Some(Enabled(w.row, p)))
    case Job(tokens, fault, lost) =>
      if w.row.None? then w
      else
        var (row, chain) := RunJob(u, w.row.value, w.chain, tokens, fault, lost);
        World(Some(row), chain)
  }

  function Steps(u: Setup, w: World, es: seq<Event>): World {
    if es == [] then w else Step(u, Steps(u, w, es[..|es| - 1]), es[|es| - 1])
  }

  // ---------- lists of operations ----------

  lemma {:induction false} PerformAllConcat(a: seq<Op>, b: seq<Op>, x: Losses, u: Setup, m: Machine)
    ensures PerformAll(a + b, x, u, m) == PerformAll(b, x.After(|a|), u, PerformAll(a, x, u, m))
    decreases |b|
  {
    if b == [] {
      assert a + b == a;
    } else {
      assert (a + b)[..|a + b| - 1] == a + b[..|b| - 1];
      PerformAllConcat(a, b[..|b| - 1], x, u, m);
    }
  }

  predicate KeptQueue(m: Machine, r: Machine) {
    && r.row.params == m.row.params && r.queue == m.queue && |r.chain.queues| == |m.chain.queues|
    && (m.queue.Some? && m.row.queueAddress == m.queue ==> r.row.queueAddress == m.queue)
  }

  lemma OpKeepsQueue(op: Op, gone: bool, u: Setup, m: Machine)
    requires op != Deploy
    ensures KeptQueue(m, Perform(op, gone, u, m))
  {
  }

  /** Parameters never change in a run; without a deployment neither does the queue, nor a persisted
      address that is the queue's. */
  lemma {:induction false} OpsKeepQueue(ops: seq<Op>, x: Losses, u: Setup, m: Machine)
    requires Deploy !in ops
    ensures KeptQueue(m, PerformAll(ops, x, u, m))
  {
    if ops == [] {
    } else {
      var n := |ops| - 1;
      assert ops[n] in ops && forall op :: op in ops[..n] ==> op in ops;
      OpsKeepQueue(ops[..n], x, u, m);
      OpKeepsQueue(ops[n], x.Gone(n), u, PerformAll(ops[..n], x, u, m));
    }
  }

  lemma {:induction false} OpsStayWiring(ops: seq<Op>, x: Losses, u: Setup, m: Machine)
    requires GoLive !in ops && m.row.status == Wiring
    ensures PerformAll(ops, x, u, m).row.status == Wiring
  {
    if ops == [] {
    } else {
      var pre := ops[..|ops| - 1];
      assert ops[|ops| - 1] in ops && forall op :: op in pre ==> op in ops;
      OpsStayWiring(pre, x, u, m);
    }
  }

  lemma {:induction false} SourceOpsAre(tokens: seq<string>)
    ensures |SourceOps(tokens)| == 2 * |tokens|
    ensures forall op :: op in SourceOps(tokens) ==> op.AddFirst? || op.AddSecond?
  {
    if tokens == [] {
    } else {
      SourceOpsAre(tokens[..|tokens| - 1]);
    }
  }

  /** Where a deployment can occur, and that going live is last but one. */
  lemma ScriptShape(u: Setup, tokens: seq<string>, row: ConfigRow)
    ensures var ops := Script(u, tokens, row);
            && |ops| >= 3 && ops[0] == Mark("start") && ops[|ops| - 2] == GoLive && ops[|ops| - 1] == Refresh
            && GoLive !in ops[..|ops| - 2]
            && (row.queueAddress.Some? ==> Deploy !in ops)
    ensures Deploy !in WireOps(u, row.params)
  {
    SourceOpsAre(tokens);
    var ops := Script(u, tokens, row);
    assert ops[..|ops| - 2] == QueueOps(tokens, row.queueAddress) + WireOps(u, row.params);
  }

  lemma OneOp(op: Op, x: Losses, u: Setup, m: Machine)
    ensures PerformAll([op], x, u, m) == Perform(op, x.Gone(0), u, m)
  {
    assert [op][..0] == [];
  }

  lemma TwoOps(a: Op, b: Op, x: Losses, u: Setup, m: Machine)
    ensures PerformAll([a, b], x, u, m) == Perform(b, x.Gone(1), u, Perform(a, x.Gone(0), u, m))
  {
    assert [a, b] == [a] + [b];
    PerformAllConcat([a], [b], x, u, m);
    OneOp(a, x, u, m);
    OneOp(b, x.After(1), u, Perform(a, x.Gone(0), u, m));
  }

  // ---------- the queue address ----------

  predicate SameQueue(row: ConfigRow, chain: ChainState, row': ConfigRow, chain': ChainState) {
    row.queueAddress.Some? ==> row'.queueAddress == row.queueAddress && |chain'.queues| == |chain.queues|
  }

  lemma JobKeepsQueue(u: Setup, row: ConfigRow, chain: ChainState, tokens: seq<string>, fault: Option<Fault>,
                      lost: set<nat>)
    ensures var (row', chain') := RunJob(u, row, chain, tokens, fault, lost); SameQueue(row, chain, row', chain')
  {
    ScriptShape(u, tokens, row);
    var ops := Script(u, tokens, row);
    var done := ops[..Effective(fault, |ops|)];
    if row.queueAddress.Some? {
      assert forall op :: op in done ==> op in ops;
      OpsKeepQueue(done, Losses(0, lost), u, Start(row, chain));
    }
  }

  /** Whatever happens after a queue address is persisted, it never changes or clears, and nothing is
      deployed again. */
  lemma {:induction false} QueueIsForever(u: Setup, w: World, es: seq<Event>)
    requires w.row.Some? && w.row.value.queueAddress.Some?
    ensures var w' := Steps(u, w, es);
            && w'.row.Some? && w'.row.value.queueAddress == w.row.value.queueAddress
            && |w'.chain.queues| == |w.chain.queues|
  {
    if es == [] {
    } else {
      var before, e := Steps(u, w, es[..|es| - 1]), es[|es| - 1];
      QueueIsForever(u, w, es[..|es| - 1]);
      if e.Job? {
        JobKeepsQueue(u, before.row.value, before.chain, e.tokens, e.fault, e.lost);
      }
    }
  }

  lemma {:induction false} NoAddress(ops: seq<Op>, x: Losses, u: Setup, m: Machine)
    requires Deploy !in ops && m.queue.None? && m.row.queueAddress.None?
    ensures var r := PerformAll(ops, x, u, m);
            && r.queue.None? && r.row.queueAddress.None? && r.row.params == m.row.params
            && |r.chain.queues| == |m.chain.queues|
  {
    if ops == [] {
    } else {
      var pre := ops[..|ops| - 1];
      assert ops[|ops| - 1] in ops && forall op :: op in pre ==> op in ops;
      NoAddress(pre, x, u, m);
    }
  }

  // ---------- what a run has to get done ----------

  /** The queue's price gate is set as the parameters ask. */
  predicate GateIs(c: QueueConfig, p: EnableParams) {
    && c.gateParams.Some?
    && var g := c.gateParams.value;
       && g.minN == p.minPrints && g.win == p.twapWindowSec && g.twBps == p.twapBandBps
       && g.pegBps == p.pegBandBps && g.pegMaxAge == p.pegMaxAgeSec
  }

  /** What an operation leaves behind on the chain. */
  predicate Done(op: Op, u: Setup, m: Machine) {
    var p, c := m.row.params, QueueOf(m);
    match op
    case SetGateParams => GateIs(c, p)
    case SetG1Refs => c.g1Refs == Some((u.aggregator, u.weekday))
    case SetKeeperTip => c.keeperTip == Some(p.keeperTip)
    case SetSpreadBps => c.spreadBps == Some(p.spreadBps)
    case SetCapacity => c.capacityBps == Some(p.capacityBps)
    case SetCutoffDelay => c.cutoffDelaySec == Some(p.cutoffDelaySec)
    case SetExecutor => m.queue.Some? && m.queue.value in m.chain.executors
    case SetMaxReward => m.chain.maxRewardPerCall > 0
    case SetSettler => m.queue.Some? && m.queue.value in m.chain.settlers
    case SetKeeperBps => m.chain.keeperBps == p.keeperBps
    case _ => true
  }

  /** An operation is done afterwards exactly when its write was not lost, or it was done before. */
  lemma OpOutcome(op: Op, gone: bool, u: Setup, m: Machine)
    requires HasQueue(m) && op != Deploy
    ensures HasQueue(Perform(op, gone, u, m))
    ensures Done(op, u, Perform(op, gone, u, m)) <==> !gone || Done(op, u, m)
  {
  }

  /** No other operation does it or undoes it. */
  lemma OpIndependent(op: Op, other: Op, gone: bool, u: Setup, m: Machine)
    requires HasQueue(m) && other != Deploy && op != other
    ensures Done(op, u, Perform(other, gone, u, m)) <==> Done(op, u, m)
  {
  }

  predicate NoRepeats(ops: seq<Op>) {
    forall i, j :: 0 <= i < j < |ops| ==> ops[i] != ops[j]
  }

  lemma {:induction false} OthersKept(ops: seq<Op>, x: Losses, u: Setup, m: Machine, op: Op)
    requires HasQueue(m) && Deploy !in ops && op !in ops
    ensures HasQueue(PerformAll(ops, x, u, m))
    ensures Done(op, u, PerformAll(ops, x, u, m)) <==> Done(op, u, m)
  {
    if ops == [] {
    } else {
      var n := |ops| - 1;
      assert ops[n] in ops && forall o :: o in ops[..n] ==> o in ops;
      OthersKept(ops[..n], x, u, m, op);
      OpIndependent(op, ops[n], x.Gone(n), u, PerformAll(ops[..n], x, u, m));
      OpOutcome(ops[n], x.Gone(n), u, PerformAll(ops[..n], x, u, m));
    }
  }

  /** The last operation of a list without repeats. */
  lemma LastOutcome(pre: seq<Op>, last: Op, x: Losses, u: Setup, m: Machine)
    requires HasQueue(m) && Deploy !in pre && last != Deploy && last !in pre
    ensures Done(last, u, PerformAll(pre + [last], x, u, m)) <==> !x.Gone(|pre|) || Done(last, u, m)
  {
    assert (pre + [last])[..|pre|] == pre;
    OthersKept(pre, x, u, m, last);
    OpOutcome(last, x.Gone(|pre|), u, PerformAll(pre, x, u, m));
  }

  /** An operation before the last one. */
  lemma EarlierOutcome(pre: seq<Op>, last: Op, x: Losses, u: Setup, m: Machine, op: Op)
    requires HasQueue(m) && Deploy !in pre && last != Deploy && last !in pre && op in pre
    ensures Done(op, u, PerformAll(pre + [last], x, u, m)) <==> Done(op, u, PerformAll(pre, x, u, m))
  {
    assert (pre + [last])[..|pre|] == pre;
    OthersKept(pre, x, u, m, last);
    OpIndependent(op, last, x.Gone(|pre|), u, PerformAll(pre, x, u, m));
  }

  /** In a list without repeats each operation decides for itself. */
  lemma {:induction false} OpsOutcome(ops: seq<Op>, x: Losses, u: Setup, m: Machine, i: nat)
    requires HasQueue(m) && Deploy !in ops && NoRepeats(ops) && i < |ops|
    ensures Done(ops[i], u, PerformAll(ops, x, u, m)) <==> !x.Gone(i) || Done(ops[i], u, m)
  {
    var n := |ops| - 1;
    var pre, last := ops[..n], ops[n];
    assert ops == pre + [last] && last in ops && last !in pre && forall o :: o in pre ==> o in ops;
    if i == n {
      LastOutcome(pre, last, x, u, m);
    } else {
      OpsOutcome(pre, x, u, m, i);
      assert ops[i] == pre[i];
      EarlierOutcome(pre, last, x, u, m, ops[i]);
    }
  }

  /** The row's queue carries the row's parameters, may execute, and may settle and pay the keeper
      where that applies. */
  predicate Wired(u: Setup, row: ConfigRow, chain: ChainState) {
    var p := row.params;
    && row.queueAddress.Some? && row.queueAddress.value < |chain.queues|
    && var q := row.queueAddress.value;
       && var c := chain.queues[q];
       && GateIs(c, p) && c.g1Refs == Some((u.aggregator, u.weekday)) && c.keeperTip == Some(p.keeperTip)
       && c.spreadBps == Some(p.spreadBps) && c.capacityBps == Some(p.capacityBps)
       && c.cutoffDelaySec == Some(p.cutoffDelaySec)
       && q in chain.executors && chain.maxRewardPerCall > 0
       && (u.isRegistry ==> q in chain.settlers)
       && (p.keeperBps > 0 ==> chain.keeperBps == p.keeperBps)
  }

  lemma NoRepeatsConcat(a: seq<Op>, b: seq<Op>)
    requires NoRepeats(a) && NoRepeats(b) && forall op :: op in a ==> op !in b
    ensures NoRepeats(a + b)
  {
    forall i, j | 0 <= i < j < |a + b| ensures (a + b)[i] != (a + b)[j] {
      if i < |a| <= j {
        assert a[i] in a && b[j - |a|] in b;
      }
    }
  }

  lemma PartsRepeatNothing(u: Setup, p: EnableParams)
    ensures NoRepeats(SETTINGS) && NoRepeats(RIGHTS) && NoRepeats(SettlerOps(u)) && NoRepeats(ShareOps(p))
  {
  }

  lemma PartsDiffer(u: Setup, p: EnableParams)
    ensures forall op :: op in SETTINGS ==> op !in RIGHTS + SettlerOps(u) + ShareOps(p)
    ensures forall op :: op in RIGHTS ==> op !in SettlerOps(u) + ShareOps(p)
    ensures forall op :: op in SettlerOps(u) ==> op !in ShareOps(p)
  {
  }

  lemma WireOpsDiffer(u: Setup, p: EnableParams)
    ensures NoRepeats(WireOps(u, p)) && Deploy !in WireOps(u, p)
  {
    var settler, share := SettlerOps(u), ShareOps(p);
    PartsRepeatNothing(u, p);
    PartsDiffer(u, p);
    NoRepeatsConcat(settler, share);
    NoRepeatsConcat(RIGHTS, settler + share);
    assert RIGHTS + (settler + share) == RIGHTS + settler + share;
    NoRepeatsConcat(SETTINGS, RIGHTS + settler + share);
    assert SETTINGS + (RIGHTS + settler + share) == WireOps(u, p);
  }

  lemma InWireOps(op: Op, u: Setup, p: EnableParams)
    ensures op in WireOps(u, p) <==> op in SETTINGS || op in RIGHTS || op in SettlerOps(u) || op in ShareOps(p)
  {
  }

  lemma PartsInclude(u: Setup, p: EnableParams)
    ensures SetGateParams in SETTINGS && SetG1Refs in SETTINGS && SetKeeperTip in SETTINGS
    ensures SetSpreadBps in SETTINGS && SetCapacity in SETTINGS && SetCutoffDelay in SETTINGS
    ensures SetExecutor in RIGHTS && SetMaxReward in RIGHTS
    ensures SetSettler !in SETTINGS && SetSettler !in RIGHTS && SetKeeperBps !in SETTINGS && SetKeeperBps !in RIGHTS
    ensures (SetSettler in SettlerOps(u) <==> u.isRegistry) && (SetKeeperBps in ShareOps(p) <==> p.keeperBps > 0)
    ensures SetSettler !in ShareOps(p) && SetKeeperBps !in SettlerOps(u)
  {
    assert SETTINGS[0] == SetGateParams && SETTINGS[1] == SetG1Refs && SETTINGS[2] == SetKeeperTip;
    assert SETTINGS[3] == SetSpreadBps && SETTINGS[4] == SetCapacity && SETTINGS[5] == SetCutoffDelay;
    assert RIGHTS[1] == SetExecutor && RIGHTS[2] == SetMaxReward;
    assert u.isRegistry ==> SettlerOps(u)[1] == SetSettler;
    assert p.keeperBps > 0 ==> ShareOps(p)[1] == SetKeeperBps;
  }

  lemma WireOpsInclude(u: Setup, p: EnableParams)
    ensures var ops := WireOps(u, p);
            && SetGateParams in ops && SetG1Refs in ops && SetKeeperTip in ops && SetSpreadBps in ops
            && SetCapacity in ops && SetCutoffDelay in ops && SetExecutor in ops && SetMaxReward in ops
            && (SetSettler in ops <==> u.isRegistry) && (SetKeeperBps in ops <==> p.keeperBps > 0)
  {
    PartsInclude(u, p);
    InWireOps(SetGateParams, u, p);
    InWireOps(SetG1Refs, u, p);
    InWireOps(SetKeeperTip, u, p);
    InWireOps(SetSpreadBps, u, p);
    InWireOps(SetCapacity, u, p);
    InWireOps(SetCutoffDelay, u, p);
    InWireOps(SetExecutor, u, p);
    InWireOps(SetMaxReward, u, p);
    InWireOps(SetSettler, u, p);
    InWireOps(SetKeeperBps, u, p);
  }

  lemma EachDone(u: Setup, m: Machine)
    requires HasQueue(m) && m.row.queueAddress == m.queue
    ensures Wired(u, m.row, m.chain) <==>
              && Done(SetGateParams, u, m) && Done(SetG1Refs, u, m) && Done(SetKeeperTip, u, m)
              && Done(SetSpreadBps, u, m) && Done(SetCapacity, u, m) && Done(SetCutoffDelay, u, m)
              && Done(SetExecutor, u, m) && Done(SetMaxReward, u, m)
              && (u.isRegistry ==> Done(SetSettler, u, m))
              && (m.row.params.keeperBps > 0 ==> Done(SetKeeperBps, u, m))
  {
  }

  /** A queue is wired exactly when everything on the list is done. */
  lemma WiredIffDone(u: Setup, m: Machine)
    requires HasQueue(m) && m.row.queueAddress == m.queue
    ensures Wired(u, m.row, m.chain) <==> forall op :: op in WireOps(u, m.row.params) ==> Done(op, u, m)
  {
    EachDone(u, m);
    WireOpsInclude(u, m.row.params);
    if Wired(u, m.row, m.chain) {
      forall op | op in WireOps(u, m.row.params) ensures Done(op, u, m) {
        WiredDoes(op, u, m);
      }
    }
  }

  lemma WiredDoes(op: Op, u: Setup, m: Machine)
    requires HasQueue(m) && m.row.queueAddress == m.queue && Wired(u, m.row, m.chain)
    requires (op == SetSettler ==> u.isRegistry) && (op == SetKeeperBps ==> m.row.params.keeperBps > 0)
    ensures Done(op, u, m)
  {
  }

  // ---------- a script up to going live ----------

  predicate Sound(row: ConfigRow, chain: ChainState) {
    row.queueAddress.Some? ==> row.queueAddress.value < |chain.queues|
  }

  /** Row and chain as wiring finds them: with the persisted queue, or with a new one. */
  function Before(u: Setup, row: ConfigRow, chain: ChainState): Machine {
    if row.queueAddress.Some? then Start(row, chain) else ApplyOp(Deploy, u, Start(row, chain))
  }

  /** The parts of the state that wiring writes. */
  predicate SameWiring(m: Machine, r: Machine) {
    && r.queue == m.queue && r.row.params == m.row.params && r.chain.queues == m.chain.queues
    && r.chain.executors == m.chain.executors && r.chain.maxRewardPerCall == m.chain.maxRewardPerCall
    && r.chain.settlers == m.chain.settlers && r.chain.keeperBps == m.chain.keeperBps
  }

  predicate NotWiring(op: Op) {
    op.Mark? || op.ReadChain? || op.AddFirst? || op.AddSecond? || op.Persist?
  }

  lemma {:induction false} OpsKeepWiring(ops: seq<Op>, x: Losses, u: Setup, m: Machine)
    requires forall op :: op in ops ==> NotWiring(op)
    ensures SameWiring(m, PerformAll(ops, x, u, m))
    ensures m.queue == m.row.queueAddress ==> PerformAll(ops, x, u, m).row.queueAddress == m.row.queueAddress
  {
    if ops == [] {
    } else {
      var pre := ops[..|ops| - 1];
      assert ops[|ops| - 1] in ops && forall op :: op in pre ==> op in ops;
      OpsKeepWiring(pre, x, u, m);
    }
  }

  /** After the first part of a script the queue is known and on record, and nothing else is wired. */
  lemma QueueKnown(u: Setup, tokens: seq<string>, row: ConfigRow, chain: ChainState, x: Losses)
    requires Sound(row, chain)
    ensures var m := PerformAll(QueueOps(tokens, row.queueAddress), x, u, Start(row, chain));
            HasQueue(m) && m.row.queueAddress == m.queue && SameWiring(Before(u, row, chain), m)
  {
    SourceOpsAre(tokens);
    var start := Start(row, chain);
    var pre := [Mark("start"), ReadChain, Mark("sources")] + SourceOps(tokens) + [Mark("deploy")];
    OpsKeepWiring(pre, x, u, start);
    if row.queueAddress.Some? {
      assert QueueOps(tokens, row.queueAddress) == pre;
    } else {
      assert QueueOps(tokens, row.queueAddress) == pre + [Deploy, Persist];
      PerformAllConcat(pre, [Deploy, Persist], x, u, start);
      TwoOps(Deploy, Persist, x.After(|pre|), u, PerformAll(pre, x, u, start));
    }
  }

  /** Each of these operations keeps its write or was done before. */
  predicate KeptOps(ops: seq<Op>, x: Losses, u: Setup, m: Machine) {
    forall i :: 0 <= i < |ops| ==> !x.Gone(i) || Done(ops[i], u, m)
  }

  /** No wiring write of the run is lost that was not done before: a caller can tell from the row, the
      chain, and the receipts. */
  predicate Kept(u: Setup, row: ConfigRow, chain: ChainState, tokens: seq<string>, lost: set<nat>) {
    KeptOps(WireOps(u, row.params), Losses(|QueueOps(tokens, row.queueAddress)|, lost), u, Before(u, row, chain))
  }

  lemma SameDone(op: Op, u: Setup, m: Machine, r: Machine)
    requires SameWiring(m, r)
    ensures Done(op, u, m) <==> Done(op, u, r)
  {
  }

  /** The machine when the last wiring write has been submitted. */
  predicate AtEnd(u: Setup, row: ConfigRow, chain: ChainState, m: Machine, kept: bool) {
    var b := Before(u, row, chain);
    && HasQueue(m) && m.row.queueAddress == m.queue && m.row.params == row.params
    && m.queue == b.queue && |m.chain.queues| == |b.chain.queues|
    && ((forall op :: op in WireOps(u, row.params) ==> Done(op, u, m)) <==> kept)
  }

  lemma OutcomeIsKept(ops: seq<Op>, x: Losses, u: Setup, before: Machine, m: Machine)
    requires HasQueue(m) && SameWiring(before, m) && NoRepeats(ops) && Deploy !in ops
    ensures var r := PerformAll(ops, x, u, m);
            HasQueue(r) && ((forall op :: op in ops ==> Done(op, u, r)) <==> KeptOps(ops, x, u, before))
  {
    var r := PerformAll(ops, x, u, m);
    OpsKeepQueue(ops, x, u, m);
    forall i | 0 <= i < |ops| ensures Done(ops[i], u, r) <==> !x.Gone(i) || Done(ops[i], u, before) {
      OpsOutcome(ops, x, u, m, i);
      SameDone(ops[i], u, before, m);
    }
    assert forall i :: 0 <= i < |ops| ==> ops[i] in ops;
  }

  lemma WiringEndsFrom(u: Setup, row: ConfigRow, chain: ChainState, x: Losses, m: Machine)
    requires HasQueue(m) && m.row.queueAddress == m.queue && SameWiring(Before(u, row, chain), m)
    ensures AtEnd(u, row, chain, PerformAll(WireOps(u, row.params), x, u, m),
                  KeptOps(WireOps(u, row.params), x, u, Before(u, row, chain)))
  {
    WireOpsDiffer(u, row.params);
    OpsKeepQueue(WireOps(u, row.params), x, u, m);
    OutcomeIsKept(WireOps(u, row.params), x, u, Before(u, row, chain), m);
  }

  lemma WiringEnds(u: Setup, tokens: seq<string>, row: ConfigRow, chain: ChainState, lost: set<nat>)
    requires Sound(row, chain)
    ensures var ops := QueueOps(tokens, row.queueAddress) + WireOps(u, row.params);
            AtEnd(u, row, chain, PerformAll(ops, Losses(0, lost), u, Start(row, chain)),
                  Kept(u, row, chain, tokens, lost))
  {
    var a, x := QueueOps(tokens, row.queueAddress), Losses(0, lost);
    QueueKnown(u, tokens, row, chain, x);
    PerformAllConcat(a, WireOps(u, row.params), x, u, Start(row, chain));
    WiringEndsFrom(u, row, chain, x.After(|a|), PerformAll(a, x, u, Start(row, chain)));
  }

  /** Live, with the same parameters, on the persisted queue or on the one new one; wired or not. */
  predicate IsLive(u: Setup, row: ConfigRow, chain: ChainState, row': ConfigRow, chain': ChainState, wired: bool) {
    && row'.status == Live && row'.params == row.params && (Wired(u, row', chain') <==> wired)
    && row'.queueAddress == (if row.queueAddress.Some? then row.queueAddress else Some(|chain.queues|))
    && |chain'.queues| == |chain.queues| + (if row.queueAddress.Some? then 0 else 1)
  }

  lemma GoingLive(u: Setup, row: ConfigRow, chain: ChainState, m: Machine, kept: bool)
    requires AtEnd(u, row, chain, m, kept)
    ensures var live := ApplyOp(GoLive, u, m); IsLive(u, row, chain, live.row, live.chain, kept)
  {
    var live := ApplyOp(GoLive, u, m);
    forall op ensures Done(op, u, live) <==> Done(op, u, m) {
      SameDone(op, u, m, live);
    }
    WiredIffDone(u, live);
  }

  lemma EndOf(ops: seq<Op>, x: Losses, u: Setup, m: Machine)
    ensures PerformAll(ops + [GoLive], x, u, m) == ApplyOp(GoLive, u, PerformAll(ops, x, u, m))
    ensures PerformAll(ops + [GoLive] + [Refresh], x, u, m) == ApplyOp(GoLive, u, PerformAll(ops, x, u, m))
  {
    PerformAllConcat(ops, [GoLive], x, u, m);
    OneOp(GoLive, x.After(|ops|), u, PerformAll(ops, x, u, m));
    PerformAllConcat(ops + [GoLive], [Refresh], x, u, m);
    OneOp(Refresh, x.After(|ops| + 1), u, PerformAll(ops + [GoLive], x, u, m));
  }

  /** The machine after the last two operations of a script. */
  lemma ScriptEnd(u: Setup, tokens: seq<string>, row: ConfigRow, chain: ChainState, k: nat, lost: set<nat>)
    requires k <= |Script(u, tokens, row)| <= k + 1
    ensures var ops := QueueOps(tokens, row.queueAddress) + WireOps(u, row.params);
            Reach(u, row, chain, tokens, k, lost) ==
            ApplyOp(GoLive, u, PerformAll(ops, Losses(0, lost), u, Start(row, chain)))
  {
    var ops := QueueOps(tokens, row.queueAddress) + WireOps(u, row.params);
    EndOf(ops, Losses(0, lost), u, Start(row, chain));
    var script := Script(u, tokens, row);
    assert script == ops + [GoLive] + [Refresh];
    assert script[..|script|] == script && script[..|script| - 1] == ops + [GoLive];
  }

  /** A script that gets as far as going live leaves a live row; wired exactly if no wiring write was
      lost that was not done before. */
  lemma WentLive(u: Setup, tokens: seq<string>, row: ConfigRow, chain: ChainState, k: nat, lost: set<nat>)
    requires Sound(row, chain) && k <= |Script(u, tokens, row)| <= k + 1
    ensures var m := Reach(u, row, chain, tokens, k, lost);
            IsLive(u, row, chain, m.row, m.chain, Kept(u, row, chain, tokens, lost))
  {
    var ops := QueueOps(tokens, row.queueAddress) + WireOps(u, row.params);
    WiringEnds(u, tokens, row, chain, lost);
    ScriptEnd(u, tokens, row, chain, k, lost);
    var m := PerformAll(ops, Losses(0, lost), u, Start(row, chain));
    GoingLive(u, row, chain, m, Kept(u, row, chain, tokens, lost));
  }

  /** One that has begun but not got there leaves it wiring. */
  lemma StillWiring(u: Setup, tokens: seq<string>, row: ConfigRow, chain: ChainState, k: nat, lost: set<nat>)
    requires 0 < k < |Script(u, tokens, row)| - 1
    ensures Reach(u, row, chain, tokens, k, lost).row.status == Wiring
  {
    var ops, x, m := Script(u, tokens, row), Losses(0, lost), Start(row, chain);
    ScriptShape(u, tokens, row);
    assert ops[..k] == [Mark("start")] + ops[1..k];
    PerformAllConcat([Mark("start")], ops[1..k], x, u, m);
    OneOp(Mark("start"), x, u, m);
    forall op | op in ops[1..k] ensures op != GoLive {
      assert op in ops[..|ops| - 2];
    }
    OpsStayWiring(ops[1..k], x.After(1), u, ApplyOp(Mark("start"), u, m));
  }

  predicate SoundMachine(m: Machine) { Sound(m.row, m.chain) && (m.queue.Some? ==> HasQueue(m)) }

  lemma OpSound(op: Op, gone: bool, u: Setup, m: Machine)
    requires SoundMachine(m)
    ensures SoundMachine(Perform(op, gone, u, m)) && Perform(op, gone, u, m).row.params == m.row.params
  {
  }

  lemma {:induction false} OpsSound(ops: seq<Op>, x: Losses, u: Setup, m: Machine)
    requires SoundMachine(m)
    ensures SoundMachine(PerformAll(ops, x, u, m)) && PerformAll(ops, x, u, m).row.params == m.row.params
  {
    if ops == [] {
    } else {
      var n := |ops| - 1;
      OpsSound(ops[..n], x, u, m);
      OpSound(ops[n], x.Gone(n), u, PerformAll(ops[..n], x, u, m));
    }
  }

  // ---------- a live row ----------

  predicate Safe(u: Setup, row: ConfigRow, chain: ChainState) {
    Sound(row, chain) && (row.status == Live ==> Wired(u, row, chain))
  }

  lemma JobKeepsSafe(u: Setup, row: ConfigRow, chain: ChainState, tokens: seq<string>, fault: Option<Fault>,
                     lost: set<nat>)
    requires Safe(u, row, chain) && Kept(u, row, chain, tokens, lost)
    ensures var (row', chain') := RunJob(u, row, chain, tokens, fault, lost);
            Safe(u, row', chain') && row'.params == row.params
  {
    var ops := Script(u, tokens, row);
    var k := Effective(fault, |ops|);
    OpsSound(ops[..k], Losses(0, lost), u, Start(row, chain));
    if k >= |ops| - 1 {
      WentLive(u, tokens, row, chain, k, lost);
    } else if k > 0 {
      StillWiring(u, tokens, row, chain, k, lost);
    }
  }

  predicate SafeWorld(u: Setup, w: World) { w.row.Some? ==> Safe(u, w.row.value, w.chain) }

  /** No run of the history loses a wiring write that was not done before. */
  predicate AllKept(u: Setup, w: World, es: seq<Event>) {
    es == [] ||
    (var before, e := Steps(u, w, es[..|es| - 1]), es[|es| - 1];
     && AllKept(u, w, es[..|es| - 1])
     && (e.Job? && before.row.Some? ==> Kept(u, before.row.value, before.chain, e.tokens, e.lost)))
  }

  /** Over every sequence of requests and runs, with a failure or a crash at any operation and any
      writes lost that leave nothing undone: a live row is wired, with the parameters it shows. */
  lemma {:induction false} LiveIsWired(u: Setup, w: World, es: seq<Event>)
    requires SafeWorld(u, w) && AllKept(u, w, es)
    ensures SafeWorld(u, Steps(u, w, es))
  {
    if es == [] {
    } else {
      var before, e := Steps(u, w, es[..|es| - 1]), es[|es| - 1];
      LiveIsWired(u, w, es[..|es| - 1]);
      if e.Job? && before.row.Some? {
        JobKeepsSafe(u, before.row.value, before.chain, e.tokens, e.fault, e.lost);
      }
    }
  }

  /** A run that gets to going live leaves a wired queue exactly when each of its wiring writes was
      either not lost or already done before; the row says live all the same. */
  lemma LiveIsWiredIff(u: Setup, row: ConfigRow, chain: ChainState, tokens: seq<string>, fault: Option<Fault>,
                       lost: set<nat>)
    requires Sound(row, chain) && Effective(fault, |Script(u, tokens, row)|) >= |Script(u, tokens, row)| - 1
    ensures var (row', chain') := RunJob(u, row, chain, tokens, fault, lost);
            && (Wired(u, row', chain') <==> Kept(u, row, chain, tokens, lost))
            && (row'.status == Live <==> !Caught(fault, |Script(u, tokens, row)|))
  {
    WentLive(u, tokens, row, chain, Effective(fault, |Script(u, tokens, row)|), lost);
  }

  /** For one: with the settings of a new queue lost, the row is live and the queue is not set up. */
  lemma LiveButNotWired(u: Setup, row: ConfigRow, chain: ChainState, tokens: seq<string>)
    requires row.queueAddress.None?
    ensures var (row', chain') := RunJob(u, row, chain, tokens, None, {|QueueOps(tokens, None)|});
            row'.status == Live && !Wired(u, row', chain')
  {
    var lost, base := {|QueueOps(tokens, None)|}, |QueueOps(tokens, None)|;
    LiveIsWiredIff(u, row, chain, tokens, None, lost);
    assert WireOps(u, row.params)[0] == SetGateParams;
    assert base + 0 in lost && !Done(SetGateParams, u, Before(u, row, chain));
  }

  // ---------- deployments ----------

  /** A script without an address on record: everything before the deployment, it, its record, the rest. */
  lemma ScriptAroundDeploy(u: Setup, tokens: seq<string>, row: ConfigRow) returns (before: seq<Op>, after: seq<Op>)
    requires row.queueAddress.None?
    ensures Script(u, tokens, row) == before + [Deploy, Persist] + after
    ensures Deploy !in before && Deploy !in after && |before| == |QueueOps(tokens, None)| - 2
  {
    SourceOpsAre(tokens);
    ScriptShape(u, tokens, row);
    before := [Mark("start"), ReadChain, Mark("sources")] + SourceOps(tokens) + [Mark("deploy")];
    after := WireOps(u, row.params) + [GoLive, Refresh];
    assert QueueOps(tokens, None) == before + [Deploy, Persist];
  }

  lemma AroundDeploy(before: seq<Op>, after: seq<Op>, x: Losses, u: Setup, m: Machine, k: nat)
    requires Deploy !in before && Deploy !in after && k <= |before| + 2 + |after|
    requires m.queue.None? && m.row.queueAddress.None?
    ensures var r := PerformAll((before + [Deploy, Persist] + after)[..k], x, u, m);
            && |r.chain.queues| == |m.chain.queues| + (if k > |before| then 1 else 0)
            && (r.row.queueAddress.None? <==> k < |before| + 2)
  {
    var ops, n := before + [Deploy, Persist] + after, |before|;
    if k <= n {
      assert ops[..k] == before[..k] && forall op :: op in before[..k] ==> op in before;
      NoAddress(before[..k], x, u, m);
    } else {
      NoAddress(before, x, u, m);
      var r := PerformAll(before, x, u, m);
      if k == n + 1 {
        assert ops[..k] == before + [Deploy];
        PerformAllConcat(before, [Deploy], x, u, m);
        OneOp(Deploy, x.After(n), u, r);
      } else {
        var rest := after[..k - n - 2];
        assert ops[..k] == before + [Deploy, Persist] + rest && forall op :: op in rest ==> op in after;
        PerformAllConcat(before + [Deploy, Persist], rest, x, u, m);
        PerformAllConcat(before, [Deploy, Persist], x, u, m);
        TwoOps(Deploy, Persist, x.After(n), u, r);
        OpsKeepQueue(rest, x.After(n + 2), u, ApplyOp(Persist, u, ApplyOp(Deploy, u, r)));
      }
    }
  }

  /** The address is on record from the operation right after the deployment on: a queue is deployed
      and forgotten exactly when the run stops between the two. */
  lemma DeployedAndForgottenIff(u: Setup, row: ConfigRow, chain: ChainState, tokens: seq<string>,
                                fault: Option<Fault>, lost: set<nat>)
    requires row.queueAddress.None?
    ensures var (row', chain') := RunJob(u, row, chain, tokens, fault, lost);
            && |chain.queues| <= |chain'.queues| <= |chain.queues| + 1
            && (|chain'.queues| > |chain.queues| && row'.queueAddress.None? <==>
                Effective(fault, |Script(u, tokens, row)|) == |QueueOps(tokens, None)| - 1)
  {
    var before, after := ScriptAroundDeploy(u, tokens, row);
    AroundDeploy(before, after, Losses(0, lost), u, Start(row, chain), Effective(fault, |Script(u, tokens, row)|));
  }

  // ---------- resuming ----------

  /** From whatever an earlier run left, a run without a fault goes live on the persisted queue; wired,
      exactly if no wiring write was lost that was not done before. */
  lemma RunResumes(u: Setup, row: ConfigRow, chain: ChainState, tokens: seq<string>, lost: set<nat>)
    requires Sound(row, chain)
    ensures var (row', chain') := RunJob(u, row, chain, tokens, None, lost);
            IsLive(u, row, chain, row', chain', Kept(u, row, chain, tokens, lost))
  {
    WentLive(u, tokens, row, chain, |Script(u, tokens, row)|, lost);
  }

  /** A failed row can be enabled again, with other parameters too, and then resumes to live without
      a second deployment; a live or wiring row refuses. */
  lemma FailedResumes(u: Setup, w: World, p: EnableParams, tokens: seq<string>, lost: set<nat>)
    requires w.row.Some? && Sound(w.row.value, w.chain)
    ensures Refused(w.row) <==> Step(u, w, Enable(p)) == w && w.row.value != Enabled(w.row, p)
    ensures w.row.value.status == Failed ==>
              var w' := Step(u, Step(u, w, Enable(p)), Job(tokens, None, lost));
              && w'.row.Some? && w'.row.value.status == Live && w'.row.value.params == p
              && (Wired(u, w'.row.value, w'.chain) <==> Kept(u, Enabled(w.row, p), w.chain, tokens, lost))
              && (w.row.value.queueAddress.Some? ==>
                  w'.row.value.queueAddress == w.row.value.queueAddress && |w'.chain.queues| == |w.chain.queues|)
  {
    RunResumes(u, Enabled(w.row, p), w.chain, tokens, lost);
  }

  /** A process that dies in the middle of a run leaves a row no request can restart; only the job
      itself, run again, takes it further. */
  lemma CrashedRowRefuses(u: Setup, row: ConfigRow, chain: ChainState, tokens: seq<string>, fault: Fault,
                          lost: set<nat>, p: EnableParams, again: set<nat>)
    requires Sound(row, chain) && !fault.caught
    requires 0 < Effective(Some(fault), |Script(u, tokens, row)|) < |Script(u, tokens, row)| - 1
    ensures var (row', chain') := RunJob(u, row, chain, tokens, Some(fault), lost);
            var w := World(Some(row'), chain');
            && row'.status == Wiring && Step(u, w, Enable(p)) == w
            && Step(u, w, Job(tokens, None, again)).row.value.status == Live
  {
    var k := Effective(Some(fault), |Script(u, tokens, row)|);
    StillWiring(u, tokens, row, chain, k, lost);
    OpsSound(Script(u, tokens, row)[..k], Losses(0, lost), u, Start(row, chain));
    var (row', chain') := RunJob(u, row, chain, tokens, Some(fault), lost);
    RunResumes(u, row', chain', tokens, again);
  }

  /** A run that has gone live and then fails to refresh marks its queue as failed, wired or not. */
  lemma LiveThenFailed(u: Setup, row: ConfigRow, chain: ChainState, tokens: seq<string>, message: string,
                       lost: set<nat>)
    requires Sound(row, chain)
    ensures var n := |Script(u, tokens, row)|;
            n > 0 &&
            var (row', chain') := RunJob(u, row, chain, tokens, Some(Fault(n - 1, false, true, message)), lost);
            && row'.status == Failed && row'.error == Some(message)
            && (Wired(u, row', chain') <==> Kept(u, row, chain, tokens, lost))
  {
    ScriptShape(u, tokens, row);
    WentLive(u, tokens, row, chain, |Script(u, tokens, row)| - 1, lost);
  }

  // ---------- the keeper share ----------

  lemma {:induction false} OpsKeepShare(ops: seq<Op>, x: Losses, u: Setup, m: Machine)
    requires SetKeeperBps !in ops
    ensures PerformAll(ops, x, u, m).chain.keeperBps == m.chain.keeperBps
  {
    if ops == [] {
    } else {
      var pre := ops[..|ops| - 1];
      assert ops[|ops| - 1] in ops && forall op :: op in pre ==> op in ops;
      OpsKeepShare(pre, x, u, m);
    }
  }

  lemma ShareIsLast(u: Setup, tokens: seq<string>, row: ConfigRow)
    ensures var pre, n := QueueOps(tokens, row.queueAddress) + WireOps(u, row.params),
                          |QueueOps(tokens, row.queueAddress)| + |WireOps(u, row.params)| - 1;
            if row.params.keeperBps > 0 then pre[n] == SetKeeperBps && SetKeeperBps !in pre[..n]
            else SetKeeperBps !in pre
  {
    SourceOpsAre(tokens);
    var queue, wire := QueueOps(tokens, row.queueAddress), WireOps(u, row.params);
    if row.params.keeperBps > 0 {
      assert (queue + wire)[..|queue| + |wire| - 1] == queue + wire[..|wire| - 1];
      assert SetKeeperBps !in wire[..|wire| - 1];
    }
  }

  lemma LastSetsShare(ops: seq<Op>, x: Losses, u: Setup, m: Machine)
    requires SoundMachine(m)
    requires ops != [] && ops[|ops| - 1] == SetKeeperBps && SetKeeperBps !in ops[..|ops| - 1]
    ensures PerformAll(ops, x, u, m).chain.keeperBps ==
            if x.Gone(|ops| - 1) then m.chain.keeperBps else m.row.params.keeperBps
  {
    OpsKeepShare(ops[..|ops| - 1], x, u, m);
    OpsSound(ops[..|ops| - 1], x, u, m);
  }

  /** A share of 0 is not written, so a vault keeps the share an earlier, failed attempt has set. After
      a run without a fault the vault pays the row's share exactly when it did before, or the share is
      positive and its write was not lost. */
  lemma KeeperShareIff(u: Setup, row: ConfigRow, chain: ChainState, tokens: seq<string>, lost: set<nat>)
    requires Sound(row, chain)
    ensures var (row', chain') := RunJob(u, row, chain, tokens, None, lost);
            var position := |QueueOps(tokens, row.queueAddress)| + |WireOps(u, row.params)| - 1;
            chain'.keeperBps == row.params.keeperBps <==>
              chain.keeperBps == row.params.keeperBps || (row.params.keeperBps > 0 && position !in lost)
  {
    var x, start := Losses(0, lost), Start(row, chain);
    var pre := QueueOps(tokens, row.queueAddress) + WireOps(u, row.params);
    ScriptEnd(u, tokens, row, chain, |Script(u, tokens, row)|, lost);
    ShareIsLast(u, tokens, row);
    if row.params.keeperBps == 0 {
      OpsKeepShare(pre, x, u, start);
    } else {
      LastSetsShare(pre, x, u, start);
    }
  }

  // ---------- what a run leaves alone ----------

  /** Everything that is not this run's: other queues with their rights, other tokens' sources. The
      reward cap is raised from 0 only, and the keeper share is the old one or the row's. */
  ghost predicate LeavesOthers(row: ConfigRow, chain: ChainState, tokens: seq<string>, chain': ChainState) {
    && |chain.queues| <= |chain'.queues|
    && (forall a: nat :: a < |chain.queues| && row.queueAddress != Some(a) ==> chain'.queues[a] == chain.queues[a])
    && (forall a: nat :: a < |chain.queues| && row.queueAddress != Some(a) ==>
          (a in chain'.executors <==> a in chain.executors) && (a in chain'.settlers <==> a in chain.settlers))
    && (forall t :: t !in tokens ==> SourcesOf(chain', t) == SourcesOf(chain, t))
    && (chain'.maxRewardPerCall == chain.maxRewardPerCall ||
        (chain.maxRewardPerCall == 0 && chain'.maxRewardPerCall == MAX_UINT256))
    && (chain'.keeperBps == chain.keeperBps || chain'.keeperBps == row.params.keeperBps)
  }

  /** The machine works on the row's queue, or on one deployed in this run. */
  ghost predicate Within(row: ConfigRow, chain: ChainState, tokens: seq<string>, m: Machine) {
    && LeavesOthers(row, chain, tokens, m.chain) && m.row.params == row.params
    && (m.queue.Some? ==> m.queue == row.queueAddress || |chain.queues| <= m.queue.value)
  }

  predicate TokenOf(op: Op, tokens: seq<string>) {
    (op.AddFirst? ==> op.token in tokens) && (op.AddSecond? ==> op.token in tokens)
  }

  lemma SettingWithin(c: QueueConfig, row: ConfigRow, chain: ChainState, tokens: seq<string>, m: Machine)
    requires Within(row, chain, tokens, m)
    ensures Within(row, chain, tokens, WithQueue(m, c))
  {
  }

  lemma ApplyWithin(op: Op, u: Setup, row: ConfigRow, chain: ChainState, tokens: seq<string>, m: Machine)
    requires Within(row, chain, tokens, m) && TokenOf(op, tokens)
    ensures Within(row, chain, tokens, ApplyOp(op, u, m))
  {
    if op in SETTINGS {
      forall c ensures Within(row, chain, tokens, WithQueue(m, c)) {
        SettingWithin(c, row, chain, tokens, m);
      }
    }
  }

  lemma OpWithin(op: Op, gone: bool, u: Setup, row: ConfigRow, chain: ChainState, tokens: seq<string>, m: Machine)
    requires Within(row, chain, tokens, m) && TokenOf(op, tokens)
    ensures Within(row, chain, tokens, Perform(op, gone, u, m))
  {
    ApplyWithin(op, u, row, chain, tokens, m);
  }

  lemma {:induction false} OpsWithin(ops: seq<Op>, x: Losses, u: Setup, row: ConfigRow, chain: ChainState,
                                     tokens: seq<string>, m: Machine)
    requires Within(row, chain, tokens, m) && forall op :: op in ops ==> TokenOf(op, tokens)
    ensures Within(row, chain, tokens, PerformAll(ops, x, u, m))
  {
    if ops == [] {
    } else {
      var n := |ops| - 1;
      assert ops[n] in ops && forall op :: op in ops[..n] ==> op in ops;
      OpsWithin(ops[..n], x, u, row, chain, tokens, m);
      OpWithin(ops[n], x.Gone(n), u, row, chain, tokens, PerformAll(ops[..n], x, u, m));
    }
  }

  lemma {:induction false} SourceTokens(tokens: seq<string>, all: seq<string>)
    requires forall t :: t in tokens ==> t in all
    ensures forall op :: op in SourceOps(tokens) ==> TokenOf(op, all)
  {
    if tokens == [] {
    } else {
      assert tokens[|tokens| - 1] in tokens && forall t :: t in tokens[..|tokens| - 1] ==> t in tokens;
      SourceTokens(tokens[..|tokens| - 1], all);
    }
  }

  lemma ScriptTokens(u: Setup, tokens: seq<string>, row: ConfigRow)
    ensures forall op :: op in Script(u, tokens, row) ==> TokenOf(op, tokens)
  {
    SourceTokens(tokens, tokens);
    forall op | op in WireOps(u, row.params) ensures TokenOf(op, tokens) {
      InWireOps(op, u, row.params);
    }
  }

  /** Whatever a run does, fails at or loses, nothing of other queues and other tokens moves. */
  lemma RunLeavesOthers(u: Setup, row: ConfigRow, chain: ChainState, tokens: seq<string>, fault: Option<Fault>,
                        lost: set<nat>)
    ensures LeavesOthers(row, chain, tokens, RunJob(u, row, chain, tokens, fault, lost).1)
  {
    var ops := Script(u, tokens, row);
    var k := Effective(fault, |ops|);
    ScriptTokens(u, tokens, row);
    assert forall op :: op in ops[..k] ==> op in ops;
    OpsWithin(ops[..k], Losses(0, lost), u, row, chain, tokens, Start(row, chain));
  }

  // ---------- what the row shows ----------

  predicate Silent(op: Op) { !op.Mark? && !op.Persist? && !op.GoLive? }

  lemma {:induction false} SilentKeepsRow(ops: seq<Op>, x: Losses, u: Setup, m: Machine)
    requires forall op :: op in ops ==> Silent(op)
    ensures PerformAll(ops, x, u, m).row == m.row
  {
    if ops == [] {
    } else {
      var pre := ops[..|ops| - 1];
      assert ops[|ops| - 1] in ops && forall op :: op in pre ==> op in ops;
      SilentKeepsRow(pre, x, u, m);
    }
  }

  lemma {:induction false} ErrorStays(ops: seq<Op>, x: Losses, u: Setup, m: Machine)
    ensures PerformAll(ops, x, u, m).row.error == m.row.error
  {
    if ops == [] {
    } else {
      ErrorStays(ops[..|ops| - 1], x, u, m);
    }
  }

  /** After a mark and writes that do not touch the row, the row shows the mark. */
  lemma MarkShows(pre: seq<Op>, step: string, post: seq<Op>, x: Losses, u: Setup, m: Machine)
    requires forall op :: op in post ==> Silent(op)
    ensures PerformAll(pre + [Mark(step)] + post, x, u, m).row.step == Some(step)
  {
    PerformAllConcat(pre + [Mark(step)], post, x, u, m);
    PerformAllConcat(pre, [Mark(step)], x, u, m);
    OneOp(Mark(step), x.After(|pre|), u, PerformAll(pre, x, u, m));
    SilentKeepsRow(post, x.After(|pre| + 1), u, PerformAll(pre + [Mark(step)], x, u, m));
  }

  lemma LastMark(u: Setup, p: EnableParams) returns (pre: seq<Op>, post: seq<Op>)
    ensures var step := if p.keeperBps > 0 then "keeperBps" else if u.isRegistry then "settler" else "executor";
            WireOps(u, p) == pre + [Mark(step)] + post && forall op :: op in post ==> Silent(op)
  {
    if p.keeperBps > 0 {
      pre, post := SETTINGS + RIGHTS + SettlerOps(u), [SetKeeperBps];
      assert ShareOps(p) == [Mark("keeperBps")] + post;
    } else if u.isRegistry {
      pre, post := SETTINGS + RIGHTS, [SetSettler];
      assert SettlerOps(u) == [Mark("settler")] + post && ShareOps(p) == [];
    } else {
      pre, post := SETTINGS, [SetExecutor, SetMaxReward];
      assert RIGHTS == [Mark("executor")] + post && SettlerOps(u) == [] && ShareOps(p) == [];
    }
  }

  /** A run without a fault shows its last step and clears no error. */
  lemma RunShows(u: Setup, row: ConfigRow, chain: ChainState, tokens: seq<string>, lost: set<nat>)
    ensures var (row', _) := RunJob(u, row, chain, tokens, None, lost);
            && row'.step == Some(if row.params.keeperBps > 0 then "keeperBps"
                                 else if u.isRegistry then "settler" else "executor")
            && row'.error == row.error
  {
    var queue, x, start := QueueOps(tokens, row.queueAddress), Losses(0, lost), Start(row, chain);
    var pre, post := LastMark(u, row.params);
    var step := if row.params.keeperBps > 0 then "keeperBps" else if u.isRegistry then "settler" else "executor";
    assert queue + WireOps(u, row.params) == queue + pre + [Mark(step)] + post;
    MarkShows(queue + pre, step, post, x, u, start);
    ErrorStays(queue + WireOps(u, row.params), x, u, start);
    ScriptEnd(u, tokens, row, chain, |Script(u, tokens, row)|, lost);
  }

  // ---------- price sources ----------

  /** Every second source follows the first one of its token. */
  predicate Paired(ops: seq<Op>) {
    forall i :: 0 <= i < |ops| && ops[i].AddSecond? ==> i > 0 && ops[i - 1] == AddFirst(ops[i].token)
  }

  lemma {:induction false} SourceOpsPaired(tokens: seq<string>)
    ensures Paired(SourceOps(tokens))
  {
    if tokens == [] {
    } else {
      SourceOpsPaired(tokens[..|tokens| - 1]);
    }
  }

  lemma ScriptPaired(u: Setup, tokens: seq<string>, row: ConfigRow)
    ensures Paired(Script(u, tokens, row))
  {
    SourceOpsPaired(tokens);
    var head, tail := ScriptParts(u, tokens, row);
    assert forall i :: 0 <= i < |head| ==> head[i] in head;
    assert forall i :: 0 <= i < |tail| ==> tail[i] in tail;
  }

  lemma OpKeepsSources(op: Op, gone: bool, u: Setup, m: Machine, t: string)
    requires SourcesOf(m.chain, t) != [] && (op == AddSecond(t) ==> !m.adding)
    ensures SourcesOf(Perform(op, gone, u, m).chain, t) == SourcesOf(m.chain, t)
    ensures op == AddFirst(t) ==> !Perform(op, gone, u, m).adding
  {
  }

  /** A token with any source at all is left as it is. */
  lemma {:induction false} OpsKeepSources(ops: seq<Op>, x: Losses, u: Setup, m: Machine, t: string)
    requires Paired(ops) && SourcesOf(m.chain, t) != []
    ensures SourcesOf(PerformAll(ops, x, u, m).chain, t) == SourcesOf(m.chain, t)
    ensures ops != [] && ops[|ops| - 1] == AddFirst(t) ==> !PerformAll(ops, x, u, m).adding
  {
    if ops == [] {
    } else {
      var n := |ops| - 1;
      OpsKeepSources(ops[..n], x, u, m, t);
      assert ops[n].AddSecond? ==> ops[..n][n - 1] == AddFirst(ops[n].token);
      OpKeepsSources(ops[n], x.Gone(n), u, PerformAll(ops[..n], x, u, m), t);
    }
  }

  /** So a pair cut in half is never completed, whatever follows. */
  lemma {:induction false} HalfPairStays(u: Setup, w: World, es: seq<Event>, t: string)
    requires |SourcesOf(w.chain, t)| == 1
    ensures SourcesOf(Steps(u, w, es).chain, t) == SourcesOf(w.chain, t)
  {
    if es == [] {
    } else {
      var before, e := Steps(u, w, es[..|es| - 1]), es[|es| - 1];
      HalfPairStays(u, w, es[..|es| - 1], t);
      if e.Job? && before.row.Some? {
        var row := before.row.value;
        var ops := Script(u, e.tokens, row);
        ScriptPaired(u, e.tokens, row);
        OpsKeepSources(ops[..Effective(e.fault, |ops|)], Losses(0, e.lost), u, Start(row, before.chain), t);
      }
    }
  }

  predicate AddsNothing(ops: seq<Op>) {
    forall op :: op in ops ==> !op.AddFirst? && !op.AddSecond?
  }

  /** Operations other than adding sources leave all sources alone. */
  lemma {:induction false} OpsKeepAll(ops: seq<Op>, x: Losses, u: Setup, m: Machine)
    requires AddsNothing(ops)
    ensures PerformAll(ops, x, u, m).chain.sources == m.chain.sources
  {
    if ops == [] {
    } else {
      var pre := ops[..|ops| - 1];
      assert ops[|ops| - 1] in ops && forall op :: op in pre ==> op in ops;
      OpsKeepAll(pre, x, u, m);
    }
  }

  /** And it does happen: a run that fails between the two writes. */
  lemma HalfPairArises(u: Setup, row: ConfigRow, chain: ChainState, t: string, message: string)
    requires SourcesOf(chain, t) == []
    ensures |Script(u, [t], row)| > 4
    ensures var (row', chain') := RunJob(u, row, chain, [t], Some(Fault(4, false, true, message)), {});
            SourcesOf(chain', t) == [u.weekday] && row'.status == Failed
  {
    var ops, x, start := Script(u, [t], row), Losses(0, {}), Start(row, chain);
    var head := [Mark("start"), ReadChain, Mark("sources")];
    assert [t][..0] == [] && SourceOps([t]) == [AddFirst(t), AddSecond(t)];
    assert ops[..4] == head + [AddFirst(t)];
    PerformAllConcat(head, [AddFirst(t)], x, u, start);
    OpsKeepAll(head, x, u, start);
    OneOp(AddFirst(t), x.After(3), u, PerformAll(head, x, u, start));
  }

  /** What two writes leave of a pair of sources, either of them lost or not. */
  function Added(u: Setup, first: bool, second: bool): seq<string> {
    (if first then [u.weekday] else []) + (if second then [u.weekend] else [])
  }

  lemma PairAdded(token: string, gone: bool, gone': bool, u: Setup, m: Machine, t: string)
    ensures SourcesOf(Perform(AddSecond(token), gone', u, Perform(AddFirst(token), gone, u, m)).chain, t) ==
            if t == token && SourcesOf(m.chain, t) == [] then Added(u, !gone, !gone') else SourcesOf(m.chain, t)
  {
  }

  /** One token more. */
  lemma SourcesSnoc(tokens: seq<string>, last: string, x: Losses, u: Setup, m: Machine, t: string)
    ensures var r := PerformAll(SourceOps(tokens), x, u, m);
            SourcesOf(PerformAll(SourceOps(tokens + [last]), x, u, m).chain, t) ==
            if t == last && SourcesOf(r.chain, t) == [] then Added(u, !x.Gone(2 * |tokens|), !x.Gone(2 * |tokens| + 1))
            else SourcesOf(r.chain, t)
  {
    SourcesSplit(tokens, last, x, u, m);
    PairAdded(last, x.Gone(2 * |tokens|), x.Gone(2 * |tokens| + 1), u, PerformAll(SourceOps(tokens), x, u, m), t);
  }

  lemma TwoMore(ops: seq<Op>, a: Op, b: Op, x: Losses, u: Setup, m: Machine)
    ensures PerformAll(ops + [a, b], x, u, m) ==
            Perform(b, x.Gone(|ops| + 1), u, Perform(a, x.Gone(|ops|), u, PerformAll(ops, x, u, m)))
  {
    assert (ops + [a, b])[..|ops| + 1] == ops + [a] && (ops + [a])[..|ops|] == ops;
  }

  lemma SourcesSplit(tokens: seq<string>, last: string, x: Losses, u: Setup, m: Machine)
    ensures PerformAll(SourceOps(tokens + [last]), x, u, m) ==
            Perform(AddSecond(last), x.Gone(2 * |tokens| + 1), u,
                    Perform(AddFirst(last), x.Gone(2 * |tokens|), u, PerformAll(SourceOps(tokens), x, u, m)))
  {
    SourceOpsAre(tokens);
    TwoMore(SourceOps(tokens), AddFirst(last), AddSecond(last), x, u, m);
    assert SourceOps(tokens + [last]) == SourceOps(tokens) + [AddFirst(last), AddSecond(last)] by {
      assert (tokens + [last])[..|tokens|] == tokens;
    }
  }

  /** The token at this position is held once. */
  predicate HeldOnce(tokens: seq<string>, k: nat)
    requires k < |tokens|
  {
    forall j :: 0 <= j < |tokens| && tokens[j] == tokens[k] ==> j == k
  }

  lemma HeldOncePrefix(pre: seq<string>, last: string, k: nat)
    requires k <= |pre| && HeldOnce(pre + [last], k)
    ensures if k == |pre| then last !in pre else HeldOnce(pre, k) && pre[k] != last
  {
    var tokens := pre + [last];
    assert tokens[|pre|] == last && forall j :: 0 <= j < |pre| ==> tokens[j] == pre[j];
  }

  /** The sources of a token that is held once. */
  lemma {:induction false} SourcesAdded(tokens: seq<string>, x: Losses, u: Setup, m: Machine, k: nat)
    requires k < |tokens| && HeldOnce(tokens, k)
    ensures var before := SourcesOf(m.chain, tokens[k]);
            SourcesOf(PerformAll(SourceOps(tokens), x, u, m).chain, tokens[k]) ==
            if before == [] then Added(u, !x.Gone(2 * k), !x.Gone(2 * k + 1)) else before
    decreases |tokens|
  {
    var n := |tokens| - 1;
    var pre, last := tokens[..n], tokens[n];
    assert tokens == pre + [last];
    HeldOncePrefix(pre, last, k);
    if k == n {
      SourcesOfLast(pre, last, x, u, m);
    } else {
      assert pre[k] == tokens[k];
      SourcesAdded(pre, x, u, m, k);
      SourcesSnoc(pre, last, x, u, m, pre[k]);
    }
  }

  lemma SourcesOfLast(pre: seq<string>, last: string, x: Losses, u: Setup, m: Machine)
    requires last !in pre
    ensures var before := SourcesOf(m.chain, last);
            SourcesOf(PerformAll(SourceOps(pre + [last]), x, u, m).chain, last) ==
            if before == [] then Added(u, !x.Gone(2 * |pre|), !x.Gone(2 * |pre| + 1)) else before
  {
    OtherSources(pre, x, u, m, last);
    SourcesSnoc(pre, last, x, u, m, last);
  }

  lemma {:induction false} OtherSources(tokens: seq<string>, x: Losses, u: Setup, m: Machine, t: string)
    requires t !in tokens
    ensures SourcesOf(PerformAll(SourceOps(tokens), x, u, m).chain, t) == SourcesOf(m.chain, t)
    decreases |tokens|
  {
    if tokens == [] {
    } else {
      var pre, last := tokens[..|tokens| - 1], tokens[|tokens| - 1];
      assert tokens == pre + [last] && last in tokens;
      OtherSources(pre, x, u, m, t);
      SourcesSnoc(pre, last, x, u, m, t);
    }
  }

  lemma SourcesAfter(u: Setup, row: ConfigRow, chain: ChainState, tokens: seq<string>, k: nat, lost: set<nat>)
    requires k < |tokens| && HeldOnce(tokens, k)
    ensures var (_, chain') := RunJob(u, row, chain, tokens, None, lost);
            SourcesOf(chain', tokens[k]) ==
            if SourcesOf(chain, tokens[k]) == [] then Added(u, 3 + 2 * k !in lost, 4 + 2 * k !in lost)
            else SourcesOf(chain, tokens[k])
  {
    var ops, x, start := Script(u, tokens, row), Losses(0, lost), Start(row, chain);
    var head, tail := ScriptParts(u, tokens, row);
    assert ops[..|ops|] == ops;
    PerformAllConcat(head + SourceOps(tokens), tail, x, u, start);
    PerformAllConcat(head, SourceOps(tokens), x, u, start);
    OpsKeepAll(head, x, u, start);
    SourcesAdded(tokens, x.After(3), u, PerformAll(head, x, u, start), k);
    OpsKeepAll(tail, x.After(|head + SourceOps(tokens)|), u, PerformAll(head + SourceOps(tokens), x, u, start));
  }

  lemma AddedBothIff(u: Setup, first: bool, second: bool)
    requires u.weekday != u.weekend
    ensures u.weekday in Added(u, first, second) && u.weekend in Added(u, first, second) <==> first && second
  {
  }

  /** The sources of a held token after a run without a fault. Both are in place exactly if they were,
      or none was and neither write was lost. */
  lemma SourcesCompleteIff(u: Setup, row: ConfigRow, chain: ChainState, tokens: seq<string>, k: nat, lost: set<nat>)
    requires k < |tokens| && HeldOnce(tokens, k)
    ensures var (_, chain') := RunJob(u, row, chain, tokens, None, lost);
            var before, after := SourcesOf(chain, tokens[k]), SourcesOf(chain', tokens[k]);
            var first, second := 3 + 2 * k !in lost, 4 + 2 * k !in lost;
            && after == (if before == [] then Added(u, first, second) else before)
            && (u.weekday != u.weekend ==>
                  (u.weekday in after && u.weekend in after <==>
                     (u.weekday in before && u.weekend in before) || (before == [] && first && second)))
  {
    SourcesAfter(u, row, chain, tokens, k, lost);
    if u.weekday != u.weekend {
      AddedBothIff(u, 3 + 2 * k !in lost, 4 + 2 * k !in lost);
    }
  }

  /** A lost second write leaves half a pair under a row that is live, on a queue that is wired. */
  lemma HalfPairUnderLive(u: Setup, row: ConfigRow, chain: ChainState, t: string)
    requires Sound(row, chain) && SourcesOf(chain, t) == []
    ensures var (row', chain') := RunJob(u, row, chain, [t], None, {4});
            row'.status == Live && Wired(u, row', chain') && SourcesOf(chain', t) == [u.weekday]
  {
    SourceOpsAre([t]);
    assert |QueueOps([t], row.queueAddress)| > 4;
    RunResumes(u, row, chain, [t], {4});
    SourcesCompleteIff(u, row, chain, [t], 0, {4});
  }

  lemma WiringAddsNothing(u: Setup, p: EnableParams)
    ensures AddsNothing(WireOps(u, p))
  {
  }

  lemma ScriptParts(u: Setup, tokens: seq<string>, row: ConfigRow) returns (head: seq<Op>, tail: seq<Op>)
    ensures Script(u, tokens, row) == head + SourceOps(tokens) + tail
    ensures |head| == 3 && AddsNothing(head) && AddsNothing(tail)
  {
    WiringAddsNothing(u, row.params);
    head := [Mark("start"), ReadChain, Mark("sources")];
    var queue := [Mark("deploy")] + if row.queueAddress.None? then [Deploy, Persist] else [];
    var wire := WireOps(u, row.params) + [GoLive, Refresh];
    tail := queue + wire;
    assert QueueOps(tokens, row.queueAddress) == head + SourceOps(tokens) + queue;
  }
}
