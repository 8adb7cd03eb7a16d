/** The handler as it runs: operations one after another on a row and a chain, until one throws, some
    of their writes lost on the way; and the request endpoint in front of it. */
module ForwardEnableHandler {
  import opened Options
  import opened ForwardEnable

  /** The body of the handler's try block for one run. */
  class Attempt {
    const setup: Setup
    const start: Machine
    const fault: Option<Fault>
    const lost: set<nat>
    var machine: Machine
    var performed: nat
    var thrown: bool

    /** The run has come through these operations, or has thrown at one of them. */
    ghost predicate Reached(ops: seq<Op>)
      reads this
    {
      && machine == PerformAll(ops[..Effective(fault, |ops|)], Losses(0, lost), setup, start)
      && (thrown <==> fault.Some? && fault.value.at < |ops|)
      && (!thrown ==> performed == |ops|)
    }

    constructor (setup: Setup, start: Machine, fault: Option<Fault>, lost: set<nat>)
      ensures this.setup == setup && this.start == start && this.fault == fault && this.lost == lost && Reached([])
    {
      this.setup, this.start, this.fault, this.lost := setup, start, fault, lost;
      machine, performed, thrown := start, 0, false;
      new;
      ghost var none: seq<Op> := [];
      assert none[..0] == none;
    }

    method Do(op: Op, ghost ops: seq<Op>)
      requires Reached(ops) && !thrown
      modifies this
      ensures Reached(ops + [op])
    {
      assert ops[..|ops|] == ops && (ops + [op])[..|ops|] == ops && (ops + [op])[..|ops| + 1] == ops + [op];
      var throws := fault.Some? && fault.value.at == performed;
      if !throws || fault.value.applied {
        machine := Perform(op, performed in lost, setup, machine);
      }
      performed, thrown := performed + 1, throws;
    }

    /** Operations after a throw are skipped. */
    method DoAll(more: seq<Op>, ghost ops: seq<Op>)
      requires Reached(ops)
      modifies this
      ensures Reached(ops + more)
    {
      var i := 0;
      assert ops + more[..0] == ops;
      while i < |more|
        invariant 0 <= i <= |more| && Reached(ops + more[..i])
      {
        assert ops + more[..i + 1] == ops + more[..i] + [more[i]];
        if !thrown {
          Do(more[i], ops + more[..i]);
        } else {
          Skipped(fault, ops + more[..i], more[i]);
        }
        i := i + 1;
      }
      assert more[..|more|] == more;
    }
  }

  lemma Skipped(fault: Option<Fault>, ops: seq<Op>, op: Op)
    requires fault.Some? && fault.value.at < |ops|
    ensures var k := Effective(fault, |ops|);
            Effective(fault, |ops + [op]|) == k && (ops + [op])[..k] == ops[..k]
  {
  }

  class ForwardEnableHandler {
    const setup: Setup
    var row: Option<ConfigRow>
    var chain: ChainState

    constructor (setup: Setup, row: Option<ConfigRow>, chain: ChainState)
      ensures this.setup == setup && this.row == row && this.chain == chain
    {
      this.setup, this.row, this.chain := setup, row, chain;
    }

    /** Refuses a live or wiring row; otherwise asks for these parameters from the start, keeping the
        queue address. */
    method Enable(params: EnableParams) returns (accepted: bool)
      modifies this
      ensures accepted <==> !Refused(old(row))
      ensures World(row, chain) == Step(setup, old(World(row, chain)), Event.Enable(params))
    {
      if row.Some? && (row.value.status == Live || row.value.status == Wiring) {
        return false;
      }
      var queueAddress := if row.Some? then row.value.queueAddress else None;
      row := Some(ConfigRow(Pending, None, None, queueAddress, params));
      accepted := true;
    }

    /** One run of the job. A failure is recorded in the row, unless the process dies with it; a lost
        write goes unnoticed. */
    method Run(tokens: seq<string>, fault: Option<Fault>, lost: set<nat>)
      modifies this
      ensures World(row, chain) == Step(setup, old(World(row, chain)), Job(tokens, fault, lost))
    {
      if row.None? {
        return;
      }
      var cfg := row.value;
      var attempt := new Attempt(setup, Start(cfg, chain), fault, lost);
      FindQueue(attempt, cfg, tokens);
      WireQueue(attempt, cfg, QueueOps(tokens, cfg.queueAddress));
      attempt.DoAll([GoLive, Refresh], QueueOps(tokens, cfg.queueAddress) + WireOps(setup, cfg.params));
      var after := attempt.machine.row;
      if attempt.thrown && fault.value.caught {
        after := after.(status := Failed, error := Some(fault.value.message));
      }
      row, chain := Some(after), attempt.machine.chain;
    }

    method FindQueue(attempt: Attempt, cfg: ConfigRow, tokens: seq<string>)
      requires attempt.Reached([])
      modifies attempt
      ensures attempt.Reached(QueueOps(tokens, cfg.queueAddress))
    {
      ghost var head := [Mark("start"), ReadChain, Mark("sources")];
      attempt.DoAll([Mark("start"), ReadChain, Mark("sources")], []);
      assert [] + head == head && tokens[..0] == [] && head + SourceOps([]) == head;
      var i := 0;
      while i < |tokens|
        invariant 0 <= i <= |tokens| && attempt.Reached(head + SourceOps(tokens[..i]))
      {
        assert tokens[..i + 1][..i] == tokens[..i];
        ghost var pair := [AddFirst(tokens[i]), AddSecond(tokens[i])];
        assert head + SourceOps(tokens[..i + 1]) == head + SourceOps(tokens[..i]) + pair;
        attempt.DoAll([AddFirst(tokens[i]), AddSecond(tokens[i])], head + SourceOps(tokens[..i]));
        i := i + 1;
      }
      assert tokens[..|tokens|] == tokens;
      attempt.DoAll([Mark("deploy")], head + SourceOps(tokens));
      ghost var found := head + SourceOps(tokens) + [Mark("deploy")];
      assert found + [] == found;
      if cfg.queueAddress.None? {
        attempt.DoAll([Deploy, Persist], found);
      }
    }

    method WireQueue(attempt: Attempt, cfg: ConfigRow, ghost ops: seq<Op>)
      requires attempt.Reached(ops)
      modifies attempt
      ensures attempt.Reached(ops + WireOps(setup, cfg.params))
    {
      attempt.DoAll([SetGateParams, SetG1Refs, SetKeeperTip, SetSpreadBps, SetCapacity, SetCutoffDelay], ops);
      attempt.DoAll([Mark("executor"), SetExecutor, SetMaxReward], ops + SETTINGS);
      ghost var done := ops + SETTINGS + RIGHTS;
      if setup.isRegistry {
        attempt.DoAll([Mark("settler"), SetSettler], done);
      }
      assert done + [] == done;
      done := done + SettlerOps(setup);
      if cfg.params.keeperBps > 0 {
        attempt.DoAll([Mark("keeperBps"), SetKeeperBps], done);
      }
      assert done + [] == done;
      assert done + ShareOps(cfg.params) == ops + WireOps(setup, cfg.params);
    }
  }
}
