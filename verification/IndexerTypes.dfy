/** Chain logs, read-model rows and the tables the indexer writes. */
module IndexerTypes {
  import opened Options

  type Address = string
  type LogKey = (string, nat)
  type TicketKey = (Address, nat)
  type Recipe = seq<(Address, nat)>

  // ---------- what the chain emits ----------

  datatype EventKind = CreateRequested | RedeemRequested | PartialFill | Settled | Cancelled

  /** Decoded arguments of the five forward-queue events. A fill emits no cutoff: `cutoffMs` is filled
      in by whoever decodes the log (`FillCutoffs.Seen`). */
  datatype LogArgs =
    | CreateArgs(owner: Address, cash: nat, cutoff: nat)
    | RedeemArgs(owner: Address, shares: nat, cutoff: nat)
    | FillArgs(filledCash: nat, remainingCash: nat, cutoffMs: nat)
    | SettledArgs
    | CancelledArgs

  datatype ForwardLog = ForwardLog(queue: Address, ticketId: nat, args: LogArgs,
                                   txHash: string, logIndex: nat, block: nat, timestamp: nat)

  datatype VaultType = Basic | Managed | Committed | Rebalance | Registry

  datatype CreationLog = CreationLog(vault: Address, vaultType: VaultType, constituents: Recipe,
                                     root: string, block: nat)

  datatype RecipeLog = RecipeLog(vault: Address, recipe: Recipe, block: nat, logIndex: nat)

  /** Everything the factory, the registry vaults and the forward queues emit, in chain order. */
  datatype Chain = Chain(creations: seq<CreationLog>, recipes: seq<RecipeLog>, forward: seq<ForwardLog>)

  // ---------- what the reader hands to the repository ----------

  datatype Payload =
    | RequestPayload(amount: nat, cutoff: nat)
    | FillPayload(filledCash: nat, remainingCash: nat)
    | EmptyPayload

  datatype TicketEvent = TicketEvent(vault: Address, queue: Address, ticketId: nat, kind: EventKind,
                                     owner: Address, amount: nat, remaining: nat, cutoffMs: nat,
                                     txHash: string, logIndex: nat, block: nat, timestampMs: nat,
                                     payload: Payload)

  // ---------- what the database stores ----------

  datatype TicketKind = Create | Redeem
  datatype TicketStatus = PendingTicket | PartialTicket | SettledTicket | CancelledTicket

  datatype TicketRow = TicketRow(vault: Address, owner: Address, kind: TicketKind, amount: nat,
                                 remaining: nat, status: TicketStatus, cutoffMs: nat)

  datatype EventRow = EventRow(queue: Address, vault: Address, ticketId: nat, kind: EventKind,
                               payload: Payload, timestampMs: nat)

  datatype ActivityRow = ActivityRow(owner: Address, vault: Address, kind: EventKind,
                                     payload: Payload, block: nat, timestampMs: nat)

  datatype ForwardTables = ForwardTables(tickets: map<TicketKey, TicketRow>,
                                         events: map<LogKey, EventRow>, activity: map<LogKey, ActivityRow>)

  datatype BasketRow = BasketRow(vaultType: VaultType, root: string)

  datatype Db = Db(baskets: map<Address, BasketRow>,
                   constituents: map<(Address, Address), nat>, forward: ForwardTables, checkpoint: Option<int>)

  const EMPTY_DB := Db(map[], map[], ForwardTables(map[], map[], map[]), None)

  function LogKeyOf(l: ForwardLog): LogKey { (l.txHash, l.logIndex) }
  function EventKey(e: TicketEvent): LogKey { (e.txHash, e.logIndex) }
  function TicketOf(e: TicketEvent): TicketKey { (e.queue, e.ticketId) }

  function KindOf(a: LogArgs): EventKind {
    match a
    case CreateArgs(_, _, _) => CreateRequested
    case RedeemArgs(_, _, _) => RedeemRequested
    case FillArgs(_, _, _) => PartialFill
    case SettledArgs => Settled
    case CancelledArgs => Cancelled
  }

  predicate IsRequestKind(k: EventKind) { k == CreateRequested || k == RedeemRequested }
  predicate IsTerminalKind(k: EventKind) { k == Settled || k == Cancelled }

  function StatusOf(k: EventKind): TicketStatus {
    match k
    case CreateRequested => PendingTicket
    case RedeemRequested => PendingTicket
    case PartialFill => PartialTicket
    case Settled => SettledTicket
    case Cancelled => CancelledTicket
  }
}
