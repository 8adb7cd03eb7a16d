# Meridian backend: what it keeps, proved

A Dafny model of the TypeScript backend's hard logic and the properties it is for. Five parts:

1. **The resumable indexer.** A tick reads a block range, performs a list of atomic writes, and moves the
   checkpoint with the last of them. `TickPlan` says which writes, in which order; a tick that fails
   anywhere has performed a prefix of them, and a run is any sequence of such ticks. `IndexerService` is the
   same thing as code: a repository whose methods upsert rows, readers that collect logs in loops, a tick
   that stops at the first failure, proved to do exactly what the plan says. `ForwardTickets`,
   `ForwardHistory`, `FillCutoffs`, `ForwardReadModel` and `ForwardRuns` lead to the statement that the
   forward tables hold the meaning of the chain up to the checkpoint after every run, and `ForwardListing` to
   what is lost when ticks do not list a queue. `BasketRuns` says what constituents a vault holds after every
   run, `RegistryConstituents` and `RegistryRuns` say it of registry vaults, whose recipes change, and
   `RegistryRanges` what empty recipes do; `BlockTiling` is about the tiling of the chain by committed ranges.
2. **Signals and NAV.** `Fusion` (median, divergence, band), `SignalRouter` (market status, fallback walk,
   sequencer gate, fusion mode) and `Nav` (values, bands, the estimated flag).
3. **Basket weights.** `PreviewDeploy` and `DecimalPrinter` (weights to quantities to values to weights, and
   how quantities are shown), `Holdings` (merged balances, weights, drift), over `FixedPoint` (floors).
4. **Forward cash.** `ForwardSettle` (preparing the filler) and `ForwardEnable` with `ForwardEnableHandler`
   (the deploy-and-wire saga with a failure or a crash at any operation, and with any submitted write lost
   without a sign).
5. **Registry recipes.** `RegistryRecipe` (canonical order, root, aligned proofs over any lawful tree).

`Options`, `IndexerTypes`, `OracleTypes`, `Permutations` and `Sorting` hold what several of them share.
`dafny verify dfyconfig.toml` checks everything.

## Assumptions

- Forward logs come in block order with unique (transaction, index) keys, and requests name an owner. A
  ticket's logs are a request, then fills, then at most one settlement or cancellation. A queue is listed
  for one vault, its vault is created first, and every tick that can see one of its logs lists it. Crash
  absorption needs no ticket grammar.
- Heads do not shrink from tick to tick, and there is a start block or a checkpoint (see
  `BlockTiling.FloorIsFixedIff` for what happens otherwise).
- A vault is created once, a registry vault before it schedules anything.
- Enable runs of one vault are serial, and no enable request lands between a run's read of the row and its
  first status write. Contract addresses and the vault's kind do not change over a history.
- Wrapping moves the filler's tokens into claims one to one and leaves the vault's holdings alone. A vault's
  held tokens are distinct. A write of the settle writer is mined before the next one (the writer waits for
  its receipt).
- Prices, confidences and quantities are not negative.

## Where the code and its comments part

The model follows the code.

- `indexer.repository.ts:321-322` calls re-indexing an event a no-op. For a single event that holds only under
  the condition of `ForwardHistory.SingleReplayIsNoOpIff`; a replayed request reopens a settled ticket. A
  whole range, replayed, is absorbed.
- `indexer.service.ts:724-726` lets an empty recipe be skipped; it also hides an earlier recipe of the same
  range (`RegistryConstituents.EmptyRecipeHidesIff`).
- `indexer.service.ts:617` says a failed cutoff read falls back to now; it falls back to 0 (`FillCutoffs`).
- `fusion.ts:31` flags any source beyond the limit. Two kinds pass: sources less than one basis point beyond it,
  since the deviation is floored (`Fusion.FloorGapHides`), and any source at all around a median of 0
  (`Fusion.ZeroMedianHides`). There is no third kind (`Fusion.FlagsAnyBeyondIff`).
- `domain/oracle.ts:64-65` calls a closed, uncertain or halted price never a settlement price, so it must be marked
  estimated, and `market-status.service.ts:42-45` trusts Regular only while fresh. The walk over the adapters
  keeps to that (`Nav.IronRule`). Fusion mode looks at the market of a single reading only, and never at age:
  `SignalRouter.FusionEscapesIff` says exactly when a price that must not be settled on passes, stale Regular
  readings included, `FusionPassesIrregularIff` when one of a market that is not Regular does.
- `signal-router.ts:155` says an unset limit flags no divergence; unset means 0 and flags whatever any limit flags
  (`SignalRouter.NoLimitFlagsIff`).
- The row says live when the last step is reached (`forward-enable.handler.ts:156`), but the writer only submits
  (`forward-enable.writer.ts:31-41`): a write that is dropped or reverts later leaves a live row on a queue that
  is not wired (`ForwardEnable.LiveIsWiredIff`, `LiveButNotWired`).
- `forward-enable.writer.ts:19` calls the ensure helpers idempotent, skipping what is satisfied. The source
  pair is skipped when half done, and stays half done (`ForwardEnable.SourcesCompleteIff`, `HalfPairStays`,
  under a live row, too: `HalfPairUnderLive`).
- `forward-enable.handler.ts:17-18` rules out a second deployment. A failure after deploying and before
  recording the address leads to one (`ForwardEnable.DeployedAndForgottenIff`).
- A keeper share of 0 is not written, so a share set by an earlier failed attempt stays
  (`ForwardEnable.KeeperShareIff`).
- `registry-recipe.ts:49-54` promises proofs that verify row by row. A token that repeats with another quantity
  breaks that, and nothing else does (`RegistryRecipe.BuildBootstrapProofs`, `RepeatedTokenFails`).
- `preview-deploy.service.ts:66` parses entered quantities at 18 decimals, while rows show and value them at the
  token's: what is shown is what was entered for tokens with 18 decimals, and 0
  (`PreviewDeploy.ShownAsEnteredIff`).
- `indexer.service.ts:759-766` reads the queues the registry lists: seeded ones and those of live rows, cached for
  ten seconds (`forward-queue-registry.ts:21-29`). Logs of a queue that is off the list while their blocks are
  read (`ForwardEnable.LiveThenFailed` takes one off) are never read again (`ForwardListing.MissedForGood`).

## Model

| member | source | states |
|---|---|---|
| ForwardTickets.TicketLocality | backend/src/indexer/indexer.repository.ts:301-364 | After any list of events a ticket's row is the fold of that ticket's own events over its row before; no other event touches it. |
| ForwardTickets.EventAndActivityRows | backend/src/indexer/indexer.repository.ts:325-383 | After events with distinct keys each has its one event row, and an activity row under the owner its ticket's earlier events establish (none, and no change, while the owner is unknown). |
| ForwardTickets.OrderWithinTickets | backend/src/indexer/indexer.repository.ts:293-384 | Two lists of the same events that keep each ticket's own events in one order give the same three tables; how tickets interleave does not matter. |
| ForwardTickets.CrashAbsorption | backend/src/indexer/indexer.repository.ts:293-384 | Any events of a range, applied any number of times in any order and with any other fill cutoffs, leave no trace once the whole range is applied: all three tables are those of the range applied once. |
| ForwardHistory.KindMajorKeepsTicketOrder | backend/src/indexer/indexer.service.ts:519-567 | Reading creates, redeems, fills, settlements, cancellations in turn meets each ticket's logs in exactly chain order, if they obey the ticket grammar. |
| ForwardHistory.FoldIsMeaning | backend/src/indexer/indexer.repository.ts:301-323 | Folding a grammatical history event by event gives the row read off its first log (who, what, how much) and its last log (status, remaining, cutoff). |
| ForwardHistory.SingleReplayIsNoOpIff | backend/src/indexer/indexer.repository.ts:321-323 | Replaying one log of a history leaves the row alone exactly when its status, open amount and cutoff are those of the last log. |
| ForwardHistory.RequestReplayReopens | backend/src/indexer/indexer.repository.ts:321-323 | Replaying the request of a ticket that has any later log makes it pending again, with its full amount remaining and the request's cutoff. |
| ForwardReadModel.KindMajorKeepsTables | backend/src/indexer/indexer.service.ts:519-567 | For a queue whose tickets obey the grammar in a range, applying it kind by kind gives all three tables that applying it in chain order gives, from any tables. |
| ForwardReadModel.CrashAbsorptionOfTicks | backend/src/indexer/indexer.service.ts:680-782 | Any ticks aborted between any two writes, each reading its own fill cutoffs, then one completed tick with at least their head and queues, leave the ticket, event and activity rows of the completed tick run alone, from any database. |
| ForwardRuns.ReadModelRefinesChain | backend/src/indexer/indexer.service.ts:680-788 | After any run of completed and aborted ticks that ends with a completed one, at its checkpoint c every ticket row is the meaning of the ticket's logs up to c, every log up to c has its one event row and an activity row under the requester, and no event row comes from elsewhere. Fill cutoffs are read anew by every tick. |
| ForwardRuns.ViewIsCommitted | backend/src/indexer/indexer.service.ts:543-546 | The cutoff behind a partially filled ticket at the checkpoint is the one read by the completed tick whose range holds the fill, whatever other attempts have read. |
| ForwardRuns.OneTickMeetsAssumptions | backend/src/indexer/indexer.service.ts:680-788 | The assumptions above are met by a concrete chain with one vault, one request and one completed tick. |
| ForwardListing.EventRowIff | backend/src/indexer/indexer.service.ts:755-766 | For every run from any database, whatever queues its ticks list, a log has its event row exactly if it had it before or some attempt read its block, listed its queue under an indexed vault and got as far as writing it. |
| ForwardListing.CompletedWrites | backend/src/indexer/indexer.service.ts:760-766 | A completed tick writes every log of its range whose queue it lists under an indexed vault. |
| ForwardListing.MissedForGood | backend/src/indexer/indexer.service.ts:687-694 | Whether a log at or below the checkpoint has its event row is decided by the attempts so far, in that way; no continuation of the run adds it. |
| ForwardListing.UnlistedIsLost | backend/src/contracts/forward-queue-registry.ts:21-35 | So a queue no tick listed has lost its logs up to the checkpoint, even if later ticks list it. |
| RegistryConstituents.ReplaceIsExact | backend/src/indexer/indexer.repository.ts:187-202 | Replacing leaves exactly the recipe as the vault's constituents, dropped tokens pruned, a repeated token at its last quantity, and every other vault's rows as they were. |
| RegistryConstituents.RecipeMapLists | backend/src/indexer/indexer.repository.ts:193-198 | The constituents a recipe stands for are the tokens it lists, each with the quantity of its last entry, and no others. |
| RegistryConstituents.UpsertLeavesOthers | backend/src/indexer/indexer.repository.ts:204-241 | Creating a basket leaves every other vault's constituents alone, and its own when it lists none. |
| TickPlan.BasketUpsertIs | backend/src/indexer/indexer.repository.ts:204-241 | Indexing a creation records its type and root and, unless it is of a registry vault, gives each listed token its last listed quantity under the vault; unlisted tokens, other vaults and all else stay as they were. |
| BasketRuns.CreatedVaultsHold | backend/src/indexer/indexer.service.ts:696-707 | Over every run, crashed ticks included, a vault that is no registry vault and was created once is indexed with its type and root and holds exactly the tokens its creation lists, each at its last listed quantity, once the checkpoint has passed its creation; before, it is indexed just so or has neither basket nor constituents. |
| RegistryConstituents.RecipeUpdatesExact | backend/src/indexer/indexer.service.ts:410-443 | Per range every indexed registry vault that scheduled gets its newest recipe and nothing else, and no other vault gets an update. |
| RegistryConstituents.NewestSplits | backend/src/indexer/indexer.service.ts:418-441 | The newest recipe of a range is that of its later part if it has one, else that of its earlier part, wherever the range is cut. |
| RegistryConstituents.EmptyRecipeHidesIff | backend/src/indexer/indexer.service.ts:438-441 | A range gives the newest non-empty recipe exactly when the newest is that one, there is none, or it equals what is stored; otherwise an empty recipe hides it. |
| RegistryConstituents.EmptyRecipeSplitMatters | backend/src/indexer/indexer.service.ts:731-735 | A recipe at block 1 and an empty one at block 2 end differently in one range than in two. |
| RegistryRuns.RangeLeavesOutcome | backend/src/indexer/indexer.service.ts:727-736 | The scheduled-recipe phase of a tick leaves that range outcome for every indexed registry vault, empty recipes included. |
| RegistryRuns.RegistryFollowsSchedule | backend/src/indexer/indexer.service.ts:727-750 | After any run ending with a completed tick, a registry vault's constituents are exactly its newest scheduled recipe up to the checkpoint if that lists a token. Otherwise they are nothing, a genesis recipe some tick had on offer, or, behind an empty newest one, an earlier scheduled recipe; genesis never overwrites a newest recipe that lists a token. |
| RegistryRuns.ExactConstituents | backend/src/indexer/indexer.service.ts:727-750 | The constituents at a checkpoint are the newest scheduled recipe if it lists a token; with none scheduled and one genesis recipe on offer throughout they are genesis. |
| RegistryRuns.ConstituentsIndependentOfSplit | backend/src/indexer/indexer.service.ts:727-750 | In either case two runs to the same checkpoint that split, crash and retry differently end with the same constituents (`EmptyRecipeSplitMatters` shows that an empty newest recipe decides nothing). |
| RegistryRanges.RowsAreStored | backend/src/indexer/indexer.service.ts:727-750 | Over every run of completed ticks a registry vault's constituents are the fold, over adjacent ranges from the start block to the checkpoint, of "the newest recipe of the range if it lists a token, else what was there, else the genesis recipe on offer", empty recipes and changing offers included. |
| RegistryRanges.RunStoresNewestIff | backend/src/indexer/indexer.service.ts:438-441 | So the newest recipe up to the checkpoint that lists a token is what is stored exactly if no empty one follows it in the range of the tick that read it, or it equals what was stored before (or populated since, where nothing was). |
| RegistryRanges.StageHolds | backend/src/indexer/indexer.service.ts:687-694 | There is such a tick: every block from the start block to the checkpoint lies in the range of one. |
| RegistryRanges.GenesisIsPersistedFirst | backend/src/indexer/indexer.service.ts:742-750 | A completed tick that schedules nothing gives a listed vault without constituents the recipe persisted under its root, and only without one (or an empty one) what the vault answers now. |
| TickPlan.TickCheckpoint | backend/src/indexer/indexer.service.ts:687-694 | A tick moves the checkpoint exactly when all its writes are done, and then to the end of its range; otherwise it stays. |
| BlockTiling.TickSpan | backend/src/indexer/indexer.service.ts:683-694 | A tick that is not ready, or finds no block beyond the last one committed, changes nothing; a completed tick commits the next 9001 blocks, or all up to the head if they are fewer. |
| BlockTiling.RunTiles | backend/src/indexer/indexer.service.ts:687-694 | Over every run the committed ranges tile the chain from the start block (or checkpoint) to the checkpoint. |
| BlockTiling.TilesAre | backend/src/indexer/indexer.service.ts:693-694 | Tiles are adjacent, start right after the base, end at the top and span at most 9001 blocks each. |
| BlockTiling.CheckpointMonotone | backend/src/indexer/indexer.service.ts:687-782 | The checkpoint after a run is at least that of every earlier point of the run. |
| BlockTiling.CatchUp | backend/src/indexer/indexer.service.ts:687-694 | With the head at h, completed ticks from checkpoint c reach h after exactly ceil((h - c) / 9001) of them, and there is no further one. |
| BlockTiling.FloorIsFixedIff | backend/src/indexer/indexer.service.ts:688-690 | Where the first range starts does not depend on the head exactly when there is a start block or a checkpoint. |
| BlockTiling.FirstAbortSkipsBlock | backend/src/indexer/indexer.service.ts:688-693 | Without either, a first tick that aborts after any number of writes loses its block and all up to the retry's head: the first committed range is that head alone. |
| IndexerService.Repository.ApplyForwardEvent | backend/src/indexer/indexer.repository.ts:293-384 | The three upserts leave the database of the plan's forward write. |
| IndexerService.Repository.ReplaceRegistryConstituents | backend/src/indexer/indexer.repository.ts:187-202 | Delete and upserts leave the database of the plan's replacement. |
| IndexerService.Repository.UpsertBasketWithConstituents | backend/src/indexer/indexer.repository.ts:204-241 | The basket row and its constituents are upserted as the plan's basket write says: every listed token ends at its last listed quantity; for a registry vault no constituent moves. |
| IndexerService.Repository.SaveCheckpoint | backend/src/indexer/indexer.repository.ts:539-545 | Only the checkpoint changes, to the block given. |
| IndexerService.GetRegistryRecipeLogs | backend/src/indexer/indexer.service.ts:410-443 | Last write wins by (block, index) in whatever order logs arrive; for logs in chain order the result is the plan's list of updates. |
| IndexerService.GetCreations | backend/src/indexer/indexer.service.ts:696-707 | The creations of a range come factory event by factory event (basic, managed, committed, rebalance, registry), each in chain order, as the plan writes them. |
| IndexerService.OrdIsChainOrder | backend/src/indexer/indexer.service.ts:436 | The shifted key orders logs as the chain does, while log indices fit 32 bits. |
| IndexerService.GetForwardQueueLogs | backend/src/indexer/indexer.service.ts:510-568 | Five passes give the queue's decoded events of the range, kind by kind, each fill with the cutoff read when it is decoded. |
| IndexerService.IndexerService.Tick | backend/src/indexer/indexer.service.ts:680-788 | The tick as code, stopped after any number of writes, leaves the database the planned tick leaves and reports completion exactly when that completes. |
| IndexerService.IndexerService.PopulateGenesis | backend/src/indexer/indexer.service.ts:742-750 | Vaults without constituents at the start of the loop get the persisted recipe, else the live read, else nothing. |
| Fusion.FuseReadings | backend/src/signals/fusion.ts:35-81 | Nothing without readings; otherwise the median price, the largest deviation, the divergence verdict, the largest confidence plus the widening, the first closest source, the first freshest time and status. |
| Fusion.MedianWithinMajority | backend/src/signals/fusion.ts:6-12 | If a strict majority of values lie in [lo, hi] so does the median. |
| Fusion.MedianIsMiddle | backend/src/signals/fusion.ts:6-12 | The median of an odd count is a value with as many others at most as at least it; of an even count the floored mean of the greatest of a low half and the least of a high half. |
| Fusion.FusedPriceIsMiddle | backend/src/signals/fusion.ts:41-42 | The fused price is that middle of the prices. |
| Fusion.FusedPriceIsRobust | backend/src/signals/fusion.ts:35-42 | So a minority of sources cannot push the fused price out of the majority's range. |
| Fusion.FusionIgnoresOrder | backend/src/signals/fusion.ts:35-67 | Price, deviation, divergence and confidence are the same for every permutation of the readings. |
| Fusion.DivergedBandIsHonest | backend/src/signals/fusion.ts:64-67 | On divergence every price lies within confidence + median/10000 + 1 of the median, and the widening never exceeds a distance actually observed. |
| Fusion.BandOfSources | backend/src/signals/fusion.ts:64-67 | The band is at least as wide as every source's own, and without divergence it is one of them. |
| Fusion.AgreementIsTight | backend/src/signals/fusion.ts:22-26 | Without divergence around a positive median every price satisfies distance * 10000 < median * (limit + 1). |
| Fusion.DivergedIff | backend/src/signals/fusion.ts:22-56 | The verdict from the readings alone: divergence exactly when the median is positive and some source is off by at least (limit + 1) basis points of it. |
| Fusion.StraysMeans | backend/src/signals/fusion.ts:22-26 | Off by k basis points means at least median * (10000 + k) / 10000 or at most median * (10000 - k) / 10000, in plain numbers. |
| Fusion.FlagsAnyBeyondIff | backend/src/signals/fusion.ts:31 | The verdict is "some source is beyond the limit" exactly when none is, or one is so by a basis point around a positive median. |
| Fusion.FloorGapHides | backend/src/signals/fusion.ts:22-26 | Prices 30000, 30000, 30301 under a limit of 100 are not flagged, although the third is beyond it. |
| Fusion.ZeroMedianHides | backend/src/signals/fusion.ts:23 | Two sources at 0 hide a third at any price. |
| SignalRouter.Resolve | backend/src/signals/market-status.service.ts:28-47 | Not degraded exactly when the feed says Regular and the reading is fresh; Regular exactly when not degraded. |
| SignalRouter.Fold | backend/src/signals/market-status.service.ts:50-59 | The last status that is not Regular and whether any part is degraded; Unknown and degraded for no parts. |
| SignalRouter.GetReading | backend/src/signals/signal-router.ts:95-144 | The loop gives the first offer in fallback order, judged, or a synthesized estimate, or fails with the gate; the sequencer is asked at most once, and only if the walk meets an on-chain source. |
| SignalRouter.FallbackIsByStrength | backend/src/signals/signal-router.ts:41-48 | The fallback order holds all six sources, each weaker than those before it, the strength of sources being given apart from the list. |
| SignalRouter.ReadIsStrongest | backend/src/signals/signal-router.ts:95-144 | What is read is the offer of the strongest source that offers one, every other offering source being weaker, with its price, confidence, time and source; a reading is made up, worth nothing, only if none of the sources offers any. |
| SignalRouter.FirstOfferIsFirst | backend/src/signals/signal-router.ts:99-133 | The winner is an offer, no earlier source offers anything, and there is a winner exactly when some source offers. |
| SignalRouter.GateUnmet | backend/src/signals/signal-router.ts:106-109 | A walk that meets no on-chain source ends the same whatever the sequencer says. |
| SignalRouter.ReadIsEstimatedIff | backend/src/signals/signal-router.ts:95-144 | A reading is not estimated exactly when the first offer is Regular and fresh, and is Regular exactly then; a winner keeps price, confidence, time and source, and its status unless stale; without one the reading is the synthesized estimate. |
| SignalRouter.DownMeansOffChain | backend/src/signals/signal-router.ts:106-109 | With the sequencer down the winner comes from an off-chain source. |
| SignalRouter.FuseToReading | backend/src/signals/signal-router.ts:157-179 | Fails exactly without a reading; a single one stands, estimated unless Regular; several give a fusion, estimated exactly when they diverge. |
| SignalRouter.FusionEscapesIff | backend/src/signals/signal-router.ts:157-179 | What fusion mode returns is not estimated, though the market-status rules degrade it, exactly when the freshest reading is not Regular and fresh and either a single reading is Regular or none of several strays from their median by (limit + 1) basis points. |
| SignalRouter.FusionPassesIrregularIff | backend/src/signals/signal-router.ts:174-178 | It is not Regular and yet not estimated exactly when there are several readings, the freshest is not Regular and none strays. |
| SignalRouter.AgreeingReadingsPass | backend/src/signals/signal-router.ts:177-178 | So two equal readings of a closed market, or too old, give one with their status and time that is not estimated. |
| SignalRouter.NoLimitFlagsIff | backend/src/signals/signal-router.ts:177 | Without a limit several readings are estimated exactly when one strays from the median by a basis point, and whatever is estimated under any limit is estimated without one. |
| SignalRouter.NoLimitStillFlags | backend/src/signals/signal-router.ts:177 | For one, 10000, 10000, 10001 without a limit is flagged. |
| Nav.BandOf | backend/src/nav/confidence.service.ts:28-36 | The band encloses the value, is symmetric unless floored at 0, and reaches at least the summed band upwards. |
| Nav.SettledCoversIff | backend/src/nav/confidence.service.ts:28-36 | The band of a settled value holds exactly the values off by at most the summed band. |
| Nav.EstimateCoversIff | backend/src/nav/confidence.service.ts:28-36 | The band of an estimate holds exactly the values whose distance from the value exceeds the summed band by no more than value * bps / 10000, unfloored. |
| Nav.EstimateWidensIff | backend/src/nav/confidence.service.ts:28-36 | The band of an estimate encloses that of the same value taken as settled, and differs from it exactly when value * bps reaches 10000. |
| Nav.NormalizeIsFloor | backend/src/domain/oracle.ts:89-93 | Scaling to 18 decimals gives floor(value * 10^18 / 10^decimals) for any number of decimals. |
| Nav.ValueIsWorth | backend/src/nav/nav-engine.service.ts:167-170 | A holding is worth floor(amount * price / 10^decimals), its price being per 10^decimals base units; beyond 18 decimals it may be worth less, by less than price / 10^18 more. |
| Nav.RankIsStrength | backend/src/nav/nav-engine.service.ts:193-203 | The rank a value's weakest source is chosen by grows exactly from stronger to weaker sources, as the router's order does. |
| Nav.ComputeFromSignals | backend/src/nav/nav-engine.service.ts:154-190 | Fails exactly for an unknown basket or a failing read; otherwise value, band, flag, last irregular status, weakest source and oldest timestamp of one read per holding. |
| Nav.NavIsWorth | backend/src/nav/nav-engine.service.ts:165-183 | The reported value is the sum of what the holdings are worth at their prices; the reported band holds exactly the values off by at most the sum of what they are worth at their confidences, plus, for an estimate, value * bps / 10000, unfloored. |
| Nav.NavEncloses | backend/src/nav/nav-engine.service.ts:165-185 | If every true price lies within its reading's confidence, the floored true value lies in [lower - n, upper + n] for n holdings; lower <= value <= upper always. |
| Nav.IronRule | backend/src/nav/nav-engine.service.ts:165-187 | For every adapter behaviour and sequencer answer the value is not estimated exactly when every holding's first reading on offer is Regular and fresh, and exactly then its status is Regular. |
| Nav.NavFoldsStatusIff | backend/src/nav/nav-engine.service.ts:172-175 | Status and flag equal the market-status fold (`SignalRouter.Fold`) of the per-token verdicts exactly for baskets that hold something. |
| FixedPoint.SharesNearlySum | backend/src/tx/preview-deploy.service.ts:93 | Floored shares of a positive total add up to the scale, short by less than one unit per share. |
| DecimalPrinter.FormatBaseRoundTrip | backend/src/tx/preview-deploy.service.ts:194-199 | What is printed reads back as exactly the quantity, with a digit before the point, no trailing zero after it, and no more digits there than the token has. |
| DecimalPrinter.FormatBaseInjective | backend/src/tx/preview-deploy.service.ts:194-199 | Two quantities never print alike. |
| PreviewDeploy.PreviewOf | backend/src/tx/preview-deploy.service.ts:39-98 | Length mismatch gates with nothing computed; otherwise quantities by the first price read, rows and total by the second, and missing prices, gated exactly when weights meet a token without a first price. |
| PreviewDeploy.UnpricedAre | backend/src/tx/preview-deploy.service.ts:69-76 | The tokens reported missing are exactly those of the legs without a first price, in order. |
| PreviewDeploy.QuantitiesAre | backend/src/tx/preview-deploy.service.ts:67-80 | A weight asks for floor(notional * weight / 10000) and gets floor(asked * 10^decimals / price) base units, none without a price. |
| PreviewDeploy.RowsAre | backend/src/tx/preview-deploy.service.ts:82-95 | A row is worth floor(quantity * later price / 10^decimals) and weighs the floored share of the sum of all rows in 10000, 0 if that sum is 0. |
| PreviewDeploy.LegDrift | backend/src/tx/preview-deploy.service.ts:67-89 | With the price read again in between, the value of a leg is what was asked for, moved with the price, short by less than two units and the price of one base unit. |
| PreviewDeploy.LegLoss | backend/src/tx/preview-deploy.service.ts:67-89 | While the price does not rise a leg never gains; while it does not fall it loses at most one unit and the price of one base unit. |
| PreviewDeploy.WeightsKeepNotional | backend/src/tx/preview-deploy.service.ts:67-92 | With weights summing to 10000 and all prices known the total never exceeds the notional unless a price rose between its two reads, and unless one fell it is short by at most n - 1 plus, per leg, 1 and price / 10^decimals. |
| PreviewDeploy.WeightsNearlySum | backend/src/tx/preview-deploy.service.ts:93 | Displayed weights of a positive total sum to more than 10000 - n and at most 10000. |
| PreviewDeploy.RowsShowQuantities | backend/src/tx/preview-deploy.service.ts:86-91 | Each breakdown row shows, under its own token, text that reads back as exactly the quantity its value was computed from. |
| PreviewDeploy.ShownAsEnteredIff | backend/src/tx/preview-deploy.service.ts:65-91 | In quantities mode a row shows the number that was entered exactly for 0 and for tokens with 18 decimals. |
| Holdings.MergeHeld | backend/src/api/holdings.service.ts:59-89 | Whatever the pattern of failures, the compacted second batch and the cursor give the per-token rule, asking again exactly the failures. |
| Holdings.HeldMapIsPerToken | backend/src/api/holdings.service.ts:79-89 | Each distinct held token gets its holdingsOf, else its own balanceOf, else 0, and nothing else gets any. |
| Holdings.GetHoldings | backend/src/api/holdings.service.ts:104-118 | Rows carry target and current weight and their difference, one per constituent in order. |
| Holdings.TargetsAre | backend/src/api/holdings.service.ts:33-105 | A constituent of a recipe is worth floor(quantity * price / 10^decimals), and its target weight is the floored share of that in 10000, 0 for a recipe worth nothing. |
| Holdings.CurrentsAre | backend/src/api/holdings.service.ts:91-112 | Its current weight is the floored share of what is held of its token, valued by the last row of that token; the target weight without held balances or when they are worth nothing. |
| Holdings.TargetsNearlySum | backend/src/api/holdings.service.ts:37-105 | Target weights of a recipe worth anything sum to more than 10000 - n and at most 10000. |
| Holdings.CurrentsNearlySum | backend/src/api/holdings.service.ts:91-109 | So do current weights of held balances worth anything, if constituents under one key of the map have one held value. |
| Holdings.DriftsNearlyCancel | backend/src/api/holdings.service.ts:104-116 | Drifts from held balances sum to strictly between -n and n; without held value each is 0. |
| Holdings.OwnValueIff | backend/src/api/holdings.service.ts:97-109 | The map gives every constituent its own held value exactly if constituents under one key have one value. |
| Holdings.CaseTwinsLoseTheirWeight | backend/src/api/holdings.service.ts:97-109 | Otherwise the sum need not hold: of two constituents under one lower-case key both take the last one's held value, and both can end at weight 0. |
| ForwardSettle.SettleWriter.Approve | backend/src/capabilities/forward-settle-writer.live.adapter.ts:120-132 | Unavailable without a queue or a wallet; otherwise the path of the vault's family, with the filler, the transactions and the returned hash that path specifies. |
| ForwardSettle.SettleWriter.ApproveManaged | backend/src/capabilities/forward-settle-writer.live.adapter.ts:135-152 | The loop sends the specified transactions in order and returns the last one, or the zero hash for none. |
| ForwardSettle.ManagedSends | backend/src/capabilities/forward-settle-writer.live.adapter.ts:135-152 | These are one approval per held token whose allowance before the run is below the threshold, in the order of the tokens, and executing them gives the specified filler. |
| ForwardSettle.SettleWriter.ApproveRegistry | backend/src/capabilities/forward-settle-writer.live.adapter.ts:155-210 | The operator transaction if it is missing, then one batch of the shortfalls if there are any, and the last of them returned. |
| ForwardSettle.RegistrySends | backend/src/capabilities/forward-settle-writer.live.adapter.ts:155-210 | Executing these transactions never reverts and gives a filler that is operator and topped up. |
| ForwardSettle.ManagedApproves | backend/src/capabilities/forward-settle-writer.live.adapter.ts:135-152 | Every held token ends at or above the threshold, one that was keeps its allowance, nothing else moves. |
| ForwardSettle.RenewedBelow | backend/src/capabilities/forward-settle-writer.live.adapter.ts:13-149 | In numbers: exactly the allowances of held tokens below 2^200 are renewed, to 2^256 - 1. |
| ForwardSettle.ManagedIsFixpoint | backend/src/capabilities/forward-settle-writer.live.adapter.ts:148-149 | A second managed run writes nothing and changes nothing. |
| ForwardSettle.TopUpConserves | backend/src/capabilities/forward-settle-writer.live.adapter.ts:174-207 | Per token claims and real tokens together are conserved, and claims below the target become min(target, claims + real). |
| ForwardSettle.RegistryIsFixpoint | backend/src/capabilities/forward-settle-writer.live.adapter.ts:155-210 | A second registry run right after the first makes no write at all and changes nothing. |
| ForwardSettle.CreatesCoveredIff | backend/src/capabilities/forward-settle-writer.live.adapter.ts:171-173 | Afterwards every create of N <= supply shares is covered, ceil(holdings * N / supply) <= claims, exactly when claims and real tokens together reached the holding. |
| ForwardSettle.NeededIsCeiling | backend/src/capabilities/forward-settle-writer.live.adapter.ts:171-173 | What a create needs is the least number of claims worth its part of the holding: claims * supply >= holding * N. |
| ForwardEnable.QueueIsForever | backend/src/jobs/forward-enable.handler.ts:107-124 | Whatever requests, runs, failures and crashes follow, a persisted queue address never changes or clears and nothing is deployed again. |
| ForwardEnable.DeployedAndForgottenIff | backend/src/jobs/forward-enable.handler.ts:109-124 | A run deploys at most once, and leaves a queue without an address on record exactly when it stops between the deployment and the next write. |
| ForwardEnable.LiveIsWiredIff | backend/src/jobs/forward-enable.handler.ts:126-161 | A run that reaches going live leaves a wired queue (all six settings with the row's parameters, executor, reward cap, settler for a registry vault, a positive keeper share paid) exactly when every wiring write was either not lost or already done before; the row is live either way, unless the refresh fails. |
| ForwardEnable.LiveIsWired | backend/src/jobs/forward-enable.handler.ts:126-156 | So over every history of requests, runs, failures, crashes and losses in which each run meets that condition, a live row's queue is wired. |
| ForwardEnable.LiveButNotWired | backend/src/contracts/forward-enable.writer.ts:31-41 | For one, losing the settings write of a new queue gives a live row on a queue that is not wired. |
| ForwardEnable.RunResumes | backend/src/jobs/forward-enable.handler.ts:42-158 | From whatever an earlier run left, a run without a fault goes live on the persisted queue, deploying only if there is none, and wired exactly when no wiring write was lost that was not done before. |
| ForwardEnable.RunLeavesOthers | backend/src/jobs/forward-enable.handler.ts:42-164 | Whatever a run does, fails at or loses, other queues keep their settings and rights and tokens that are not held keep their sources; the reward cap is raised from 0 only and the keeper share stays or becomes the row's. |
| ForwardEnable.RunShows | backend/src/jobs/forward-enable.handler.ts:141-156 | A run without a fault leaves the last step it marked on the row (keeper share, else settler, else executor) and an earlier failure's error with it. |
| ForwardEnable.FailedResumes | backend/src/api/forward-enable.service.ts:19-33 | A request is refused exactly for a live or wiring row; a failed row can be enabled again, with other parameters, and resumes to live without a second deployment, wired under the same condition. |
| ForwardEnable.CrashedRowRefuses | backend/src/api/forward-enable.service.ts:26-28 | A process that dies in mid-run leaves a row that refuses requests; the job run again goes live. |
| ForwardEnable.LiveThenFailed | backend/src/jobs/forward-enable.handler.ts:156-161 | A failing refresh marks a queue that has gone live as failed, wired or not. |
| ForwardEnable.KeeperShareIff | backend/src/jobs/forward-enable.handler.ts:151-154 | After a run without a fault the vault's keeper share is the row's exactly when it was before, or the row's is positive and its write was not lost. |
| ForwardEnable.SourcesCompleteIff | backend/src/contracts/forward-enable.writer.ts:147-157 | After a run without a fault a held token has both sources exactly if it had both, or had none and neither write was lost; any list it had is left as it was. |
| ForwardEnable.HalfPairStays | backend/src/contracts/forward-enable.writer.ts:154-156 | A pair cut in half stays cut over every history. |
| ForwardEnable.HalfPairUnderLive | backend/src/contracts/forward-enable.writer.ts:155-156 | A lost second write cuts it under a row that is live, on a queue that is wired. |
| ForwardEnable.HalfPairArises | backend/src/contracts/forward-enable.writer.ts:155-156 | A run failing between the two writes cuts it. |
| ForwardEnableHandler.ForwardEnableHandler.Run | backend/src/jobs/forward-enable.handler.ts:42-164 | The handler as code, failing before or after the effect of any operation, with or without its catch block, and losing any submitted writes unnoticed, leaves the row and chain the saga's step says. |
| ForwardEnableHandler.ForwardEnableHandler.Enable | backend/src/api/forward-enable.service.ts:19-33 | Accepts exactly when the row is neither live nor wiring, and then resets it to pending with the new parameters, keeping the queue address. |
| RegistryRecipe.SortIsCanonical | backend/src/tx/registry-recipe.ts:23-31 | Distinct tokens come out strictly ascending, each quantity with its token. |
| RegistryRecipe.GenesisIgnoresOrder | backend/src/tx/registry-recipe.ts:38-47 | Every permutation of a recipe gives the same sorted arrays and root. |
| RegistryRecipe.GenesisIsCanonical | backend/src/tx/registry-recipe.ts:38-47 | The sorted arrays are the input's pairs, strictly ascending by token. |
| RegistryRecipe.BuildBootstrapProofs | backend/src/tx/registry-recipe.ts:55-70 | Arrays and root agree with the genesis root; proofs[i] verifies a leaf of sortedTokens[i] in whatever order the tree enumerates its leaves, and rows of one token share one proof. Every row's proof verifies its own leaf if no token repeats with another quantity, and, over a tree in which no proof verifies two leaves, only then. |
| RegistryRecipe.RepeatedTokenFails | backend/src/tx/registry-recipe.ts:65-67 | Over a tree that meets both laws, a token given with quantities 1 and 2 leaves some row's proof refused. |
| RegistryRecipe.PlainTreeIsSound | backend/src/tx/registry-recipe.ts:61-66 | There is such a tree, enumerating its leaves backwards. |

## Left out

- IndexerService.IndexerService.Tick: leaves out the writes of lifecycle tables (rebalances, target changes, keeper
  payouts) and of the in-kind mint and redeem feed, which come after the forward queues and before the
  checkpoint. The feed upserts activity rows by (transaction, log index); log keys are unique across all
  contracts, so it never touches the row of a forward log. A failing feed write is skipped; a failing feed read
  is an abort before the checkpoint write.
- Chain reorganisations and several replicas ticking at once: the code handles neither.
- Address casing: addresses are compared as equal or not; the case-insensitive look-ups are taken as done.
- IndexerService.Repository.UpsertBasketWithConstituents: keeps type and recipe root of a basket and its
  constituents, not manager, fees and names. What the reader asks a new vault for, the constituents and the recipe
  root (the zero root if that read reverts, indexer.service.ts:298-309), is fixed per creation log, so a vault that
  answers differently on a retry, or a root read that fails once, is not modelled; the persisted genesis recipe is
  looked up under that fixed root.
- ForwardRuns.ReadModelRefinesChain: asks every tick that can see a log to list its queue; `ForwardListing` says
  what is lost otherwise.
- RegistryConstituents.ReplaceIsExact: quantities are naturals, not decimal columns.
- PreviewDeploy.PreviewOf: starts from amounts as parsed at 18 decimals; the simulated creation and its fee quote
  come after it.
- Holdings.DriftsNearlyCancel: asks that constituents under one key of the row map have one held value, which
  `CaseTwinsLoseTheirWeight` shows is needed. Current weights are computed for Rebalance vaults only
  (holdings.service.ts:42), whose constituents are indexed under the checksummed addresses the vault returns
  (indexer.service.ts:237, unique per vault and token), so no path modelled here produces two that differ in
  case; a row written by other means could.
- Nav: the demo path (floating point and clock) and the on-chain reader, which scales one contract answer.
- Retry, breaker and timeout policies: an adapter's outcome is what remains after them.
- ForwardEnableHandler.ForwardEnableHandler.Enable: signature and nonce checks and parameter caps come before it; a
  request here is one that passed them. Transaction hashes on the row are not kept.
- ForwardEnable.LiveIsWired: says nothing of settings changed by other tools, nor of the keeper share when the row's
  is 0 (`KeeperShareIff` does). A lost write is one that never takes effect; one that takes effect after a later
  write of the same run has been submitted is not told apart from one that does so at once.
- ForwardSettle: `settle` itself (one contract call) and funding the filler.
- RegistryRecipe.GenesisIgnoresOrder: asks for distinct tokens, as the contract does. The source's comparator
  contradicts itself on a repeated one, so the order it sorts into is the engine's choice.
- RegistryRecipe.BuildBootstrapProofs: the Merkle tree is abstract, with the laws that it enumerates its leaves, its
  proofs verify and, where stated, no proof verifies two leaves.
- Solidity contracts, HTTP, queues and the database engine.
