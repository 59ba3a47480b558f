# NexusOps: a verified model of its inventory ledger, planners and protocols

A model, in Dafny 4.11, of the hard core of the NexusOps supply-chain back end, with proofs of what that core promises.
Verify it with `dafny verify dfyconfig.toml`.

The model follows the code. Tables are sequences of rows whose ids are positions; an engine, manager or service is a
class whose methods rewrite the rows with the loops and branches of the original. Each such method is proved equal to a
function of the tables, and the laws are proved about these functions: over every run of a state machine, over every
interleaving, or for every input. Where a promise does not hold in general, a lemma gives the exact condition under
which it does.

## What is modelled

**The inventory ledger.** `Tables` holds warehouses, balances, reservations and transfers and the repository queries.
`Allocation` and `Reservations` are the allocation engine and the reservation manager, `Transfers` the stock transfers.
`AllocationLaws` says what an allocation draws, when it raises and what it leaves behind; `ReleaseLaws` that a release
undoes an allocation; `ReservationLaws` and `TransferLaws` which rows and units each step touches, and that it touches
no others; `Ledger` is the state machine over all of them. Its invariant (`Ledger.Inv`) says that reserved counters
equal the active reservations, that no row is overdrawn and that transfers are covered; its theorem is that every run
keeps it, conserves allocated, moving and total units, and never reaches a clamp or a raise half-way.

**Reconciliation, repair and the cache.** `Reconciliation` and `InventorySync` are the reconciler and the sync service,
`SyncLaws` their laws: the reconciler is silent on every state the engines reach, which mismatches a repair cures, and
what a healthy verdict means; `SyncReports` says what every report and count is, on the rows. `Visibility` is the
network-visibility query, `RedisCache` the key-value store with expiry as a step, and `InventoryService` the service
over both, with the theorem that cached and uncached reads agree.

**Planners.** `Planning` and `PlanningLaws` (the fulfillment planner), `Placement` (network rebalancing), `FillRate`
(largest-first allocation, which uses the fewest warehouses), `Consolidation` and `ConsolidationLaws` (next-fit grouping
of shipments by region).

**Protocols.** `Saga` (workflows with compensation), `OptimisticLocking` (compare-and-set on row versions), `EventLog`
(numbering, validation and replay), `PurchaseOrders` and `PurchaseOrderLaws`, `DockScheduling` and `DockLaws`, and
`Shipments`. `Sums` and `Sorting` are the arithmetic and the stable sort underneath.

## What the proofs brought to light

- An allocation can raise from inside its loop, leaving an active reservation that no balance carries: the ranking adds
  up all locations of a warehouse, the write touches only the row without a location. It cannot happen if and only if no
  active warehouse shows more stock than its home row holds (`NeverMidLoopIffCoverable`, `MidLoopOrphans`).
- `is_healthy` counts repairs against findings, so it is true when nothing negative was found beforehand, even if the
  repair itself then overdraws a row (`HealthyIff`, `RepairMayOverdraw`); when the next reconciliation is clean is said
  by `SyncThenCleanIff`. A repair writes the home row only: with units reserved on other rows a second sync repairs
  again (`SecondSyncRepairsNothingIff`).
- A failed allocation skips the cache invalidation; a cached entry goes stale exactly when the first draw is covered by
  its home row and a later one is not (`FailedAllocationCoherentIff`, `StaleAfterRaise`), and no other step of the
  service can do that (`ServeCoherent`). Engines used directly do not know the cache (`ReleaseBehindTheCacheGoesStale`).
- Every plan line of a split allocation carries the first reservation's id (`PlanLineNamesItsReservationIff`). An order
  for which nothing is available is marked as planned (`NothingAvailableStillPlanned`), and so is one with some lines
  filled and others that failed everywhere (`PlannedYetUnfilledIff`, `HomeStockUnfilledIff`). A raise half-way is passed
  over, so a line can stay open though the network shows enough (`SwallowedStopUnfilled`).
- Consolidation books savings for the last group of each region only (`SavingsBooked`), and a dash in a state can merge
  two regions (`RegionsSeparate` says exactly when, `DashedStateMerges` shows it).
- A receipt conserves stock only while the source still shows it in transit (`ReceiptConservesIff`).
- `update_with_version` never loses an update, but nothing in the repository calls it: the engines change counters and
  `version` in place, which takes back whatever was added since the reading (`BlindWriteTakesBack`,
  `BlindWritersKeepOnlyTheLast`).
- Two publishers that both read before either writes number two events alike (`RaceSafeIff`).
- A refused receipt has already changed the lines before the refused one; only the session's rollback takes it back
  (`SwallowedRefusalIff`). Negative quantities are accepted (`NegativeReceiptSoundIff`).
- Rescheduling a delivery does not give back the place held before; slots are booked once per schedule ever issued.
- Generating shipments for an order twice makes them twice (`SecondCallDuplicates`); a live plan that points to a
  missing row stops the generation after the shipments before it (`GenerateForOrder`).

## Conventions

- "Now" is a parameter; a method that reads the clock several times takes the clock as a function where that matters.
  Planning an order uses one "now" throughout: it only sets when the reservations expire.
- Quantities are unbounded integers, as in Python. Decimals are reals, and so are the composite scores, which the
  original holds in floating point.
- A raise is an outcome value next to the state it leaves. Ledger runs assume nothing about rollback; purchase-order
  requests model it.
- A handler, projection or compensation is a function value; for projections `false` stands for raising.

## Model

| member | source | states |
|---|---|---|
| Allocation.AllocationEngine.RankWarehouses | src/nexusops/domain/inventory/allocation.py:87-178 | returns the ranking: every active warehouse with its aggregated availability, by descending score, the preferred one in front |
| Allocation.AllocationEngine.CreateReservation | src/nexusops/domain/inventory/allocation.py:180-197 | appends one active reservation for the draw, expiring after the configured time, and returns its id |
| Allocation.AllocationEngine.Apply | src/nexusops/domain/inventory/allocation.py:199-213 | raises and changes nothing if the home row is missing or short; otherwise moves the units into its reserved counter |
| Allocation.AllocationEngine.TakeDraw | src/nexusops/domain/inventory/allocation.py:102-117 | one turn of the loop: the reservation is written before the balance is checked, so a raise leaves it behind |
| Allocation.AllocationEngine.DrawDown | src/nexusops/domain/inventory/allocation.py:84-127 | the loop over the ranked warehouses ends in the state and result the ranking determines, including a raise half-way |
| Allocation.AllocationEngine.AllocateStock | src/nexusops/domain/inventory/allocation.py:76-127 | the whole operation, from ranking to result, as one function of the tables |
| Allocation.AllocationEngine.ReleaseSingleReservation | src/nexusops/domain/inventory/allocation.py:215-227 | takes the quantity off the home row with the clamp at zero and marks the reservation released |
| Allocation.AllocationEngine.ReleaseListed | src/nexusops/domain/inventory/allocation.py:129-135 | releases the listed reservations in order and returns the sum of their quantities |
| Allocation.AllocationEngine.ReleaseReservations | src/nexusops/domain/inventory/allocation.py:129-135 | releases exactly the active reservations of the order and returns their total |
| Allocation.AllocationEngine.Confirm | src/nexusops/domain/inventory/allocation.py:137-156 | moves units from reserved to allocated, releases an expired reservation, refuses a settled or unknown one |
| Allocation.ZeroTotal | src/nexusops/domain/inventory/allocation.py:119-121 | the zero-total test finds exactly the allocations that drew nothing |
| Tables.RawIsTheRest | src/nexusops/repositories/inventory.py:75-95 | availability at a warehouse is on hand less reserved, allocated, damaged and quarantined units, over all its rows |
| Tables.EachRowCounts | src/nexusops/repositories/inventory.py:75-95 | a further row changes each sum by its own figures at its own warehouse and SKU, and no other |
| Tables.ListedByPriority | src/nexusops/repositories/warehouse.py:26-33 | the active warehouses are listed by ascending priority number |
| AllocationLaws.RankFaithful | src/nexusops/domain/inventory/allocation.py:158-178 | the ranking holds each active warehouse with stock once, with its aggregated availability, and no other |
| AllocationLaws.PreferredHeads | src/nexusops/domain/inventory/allocation.py:87-91 | an active preferred warehouse heads the ranking whatever its score |
| AllocationLaws.BestScoresFirst | src/nexusops/domain/inventory/allocation.py:158-178 | without a preference the composite scores descend |
| AllocationLaws.RankedByPriority | src/nexusops/domain/inventory/allocation.py:158-178 | whatever the scores, a warehouse is ranked before another only if its own priority is at least as good (numbers below one counting as one), the preferred warehouse excepted |
| AllocationLaws.TiesAsListed | src/nexusops/domain/inventory/allocation.py:176-178 | without a preference, warehouses that score alike are ranked in the order they were listed |
| AllocationLaws.DrawsFit | src/nexusops/domain/inventory/allocation.py:94-117 | every draw is positive, fits its warehouse availability, and no warehouse is drawn on twice |
| AllocationLaws.SplitTotal | src/nexusops/domain/inventory/allocation.py:94-117 | with splitting the draws add up to the smaller of the demand and the ranked stock |
| AllocationLaws.WholeDraw | src/nexusops/domain/inventory/allocation.py:94-117 | without splitting one warehouse supplies everything, or nothing is drawn exactly when none covers the quantity |
| AllocationLaws.BetterPriorityFirst | src/nexusops/domain/inventory/allocation.py:94-117 | nothing is drawn from a warehouse while one of strictly better priority has units left or, without splitting, could supply everything |
| AllocationLaws.CommitEffect | src/nexusops/domain/inventory/allocation.py:199-213 | committed draws raise reserved and active sums and lower raw availability by exactly the drawn units, at every warehouse and SKU |
| AllocationLaws.TakeRows | src/nexusops/domain/inventory/allocation.py:102-117 | a draw written down is one new reservation, its units on the home row's reserved counter, and that row's version counted on by one |
| AllocationLaws.CommitReserves | src/nexusops/domain/inventory/allocation.py:180-197 | a successful run appends exactly one active reservation per draw, in order |
| AllocationLaws.AllocationRecords | src/nexusops/domain/inventory/allocation.py:180-197 | raised or not, a call appends reservations of its own order line, each for one draw in order, active and expiring in 1800 seconds; earlier rows stay |
| AllocationLaws.NeverMidLoopIffCoverable | src/nexusops/domain/inventory/allocation.py:199-213 | no request can raise from inside the loop if and only if every active warehouse shows no more stock than its home row holds |
| AllocationLaws.MidLoopOrphans | src/nexusops/domain/inventory/allocation.py:102-117 | a raise from inside the loop leaves more active reservations than reserved units at the warehouse it names |
| AllocationLaws.RaiseNamesTheDraw | src/nexusops/domain/inventory/allocation.py:199-213 | a raise from inside the loop names the first uncovered draw: no home row, or one that holds less, with both figures |
| AllocationLaws.CommitRaisesIff | src/nexusops/domain/inventory/allocation.py:199-213 | the draws of a request raise exactly when one of them asks more of a home row than it shows beforehand |
| AllocationLaws.NothingDrawnIff | src/nexusops/domain/inventory/allocation.py:94-121 | nothing is drawn exactly when the quantity is not positive, or no stock is ranked to split, or no ranked warehouse holds the whole |
| AllocationLaws.AllocateRaisesExactly | src/nexusops/domain/inventory/allocation.py:84-127 | on any tables, allocation raises exactly when the request cannot be met at all (with split: no stock; without: no warehouse covers it), leaving the tables alone, or when some draw is not covered by its home row, from inside the loop and leaving a reservation |
| AllocationLaws.AllocateMaximal | src/nexusops/domain/inventory/allocation.py:84-127 | allocated plus backorder is the quantity; with split the total is min(quantity, network availability); without, one warehouse gives all; draws are distinct, positive and within availability |
| AllocationLaws.PreferredDrawnFirst | src/nexusops/domain/inventory/allocation.py:87-112 | a preferred warehouse that can contribute is the first draw, for the smaller of quantity and its availability; the call then returns the draws or raises at an uncovered one |
| AllocationLaws.AllocateEffect | src/nexusops/domain/inventory/allocation.py:76-127 | the effect of a successful call on every sum, in terms of its own result |
| Reservations.ReservationManager.ProcessExpiredReservations | src/nexusops/domain/inventory/reservation_manager.py:87-105 | releases exactly the reservations expired at the given time; counts them and their units |
| Reservations.ReservationManager.ConfirmAllForOrder | src/nexusops/domain/inventory/reservation_manager.py:107-119 | confirms the order's active reservations one by one, each against the clock at its own turn |
| Reservations.ReservationManager.ConfirmListed | src/nexusops/domain/inventory/reservation_manager.py:110-118 | the loop: confirms the listed reservations in turn, each against the clock at its own turn, and counts the confirmed |
| Reservations.ReservationManager.ExtendReservation | src/nexusops/domain/inventory/reservation_manager.py:74-85 | extends an active reservation, refuses unknown and settled ones |
| ReservationLaws.ReleasesTheOrder | src/nexusops/repositories/inventory.py:105-111 | release_reservations releases each active row of the order and leaves every other row alone; what it returns is the sum of exactly these quantities |
| ReservationLaws.ReleasesTheExpired | src/nexusops/repositories/inventory.py:113-120 | process_expired releases each active row whose expiry is past and no other; its count and its units are those of exactly these rows |
| ReservationLaws.ConfirmsTheOrder | src/nexusops/domain/inventory/reservation_manager.py:107-119 | confirm_all_for_order settles each active row of the order, in table order, against the clock at its own turn, leaves all other rows alone and returns how many had not expired |
| ReservationLaws.ConfirmsOrRefuses | src/nexusops/domain/inventory/allocation.py:137-156 | which confirmations are refused, unchanged, and what the others make of the row |
| ReservationLaws.ReleaseExactly | src/nexusops/domain/inventory/allocation.py:215-227 | a release, of a confirmed reservation too, rewrites one counter of the home row, stopping at zero, and one reservation |
| ReservationLaws.ExtendsAtMostAnHour | src/nexusops/domain/inventory/reservation_manager.py:74-85 | an extension moves one active row's expiry by the minutes asked for, sixty at most, and nothing else; the summary tells it; all others are refused unchanged |
| ReleaseLaws.ReleaseManyExact | src/nexusops/domain/inventory/allocation.py:129-135 | when home rows cover the pending units, releasing a list takes exactly those units off each row: no clamp fires |
| ReleaseLaws.CommitShift | src/nexusops/domain/inventory/allocation.py:199-213 | committed draws add exactly their units to the home rows they name and touch no other row |
| ReleaseLaws.ReleaseUndoesAllocate | src/nexusops/domain/inventory/allocation.py:129-135 | releasing right after allocating, for an order that held nothing, restores every quantity of every balance and returns total_allocated |
| Transfers.TransferService.InitiateTransfer | src/nexusops/domain/warehouse/transfers.py:40-75 | refuses a source without enough availability; otherwise takes the units off on_hand into in_transit and records the transfer |
| Transfers.TransferService.ShipTransfer | src/nexusops/domain/warehouse/transfers.py:77-84 | marks a pending or picking transfer shipped in full; refuses any other status or id |
| Transfers.TransferService.ReceiveTransfer | src/nexusops/domain/warehouse/transfers.py:86-119 | receives a shipped transfer: in_transit falls (clamped), the destination row gains or is created; refuses an unshipped or unknown transfer |
| TransferLaws.InitiationMoves | src/nexusops/domain/warehouse/transfers.py:40-75 | when a transfer is refused, and otherwise the units that leave the source's hand for its transit and the row recorded |
| TransferLaws.ShippingRecords | src/nexusops/domain/warehouse/transfers.py:77-84 | only a pending or picking transfer is shipped, in full; no stock row changes |
| TransferLaws.ReceiptMoves | src/nexusops/domain/warehouse/transfers.py:86-119 | a receipt adds its units on hand at the destination and SKU of the transfer and nowhere else, takes them off the source's transit as far as it shows them, and changes no other sum |
| TransferLaws.CarriedThrough | src/nexusops/domain/warehouse/transfers.py:40-119 | initiated, shipped and received, a transfer takes its units from the source's hand and adds them to the destination's; every other warehouse and SKU, and every transit, is as before |
| Ledger.InvCoverable | src/nexusops/domain/inventory/allocation.py:199-213 | in an invariant state no allocation can raise half-way |
| Ledger.AllocateKeeps | src/nexusops/domain/inventory/allocation.py:76-127 | allocation keeps the invariant and the conserved amounts, whether it succeeds or raises |
| Ledger.ReleaseManyKeeps | src/nexusops/domain/inventory/allocation.py:129-135 | releasing any list of active reservations keeps both |
| Ledger.ReleaseNeverClamps | src/nexusops/domain/inventory/allocation.py:215-227 | in an invariant state the clamp is never reached: the counter falls by exactly the reserved quantity |
| Ledger.ConfirmManyKeeps | src/nexusops/domain/inventory/allocation.py:137-156 | confirming a list keeps both, counts the unexpired, and gives back exactly the lapsed units |
| Ledger.ConfirmAllSettles | src/nexusops/domain/inventory/reservation_manager.py:107-119 | from any state, confirm_all_for_order leaves nothing of the order active and returns the number unexpired at their turn |
| Ledger.ConfirmAllFreesLapsed | src/nexusops/domain/inventory/allocation.py:137-156 | in an invariant state it changes availability only by what lapsed |
| Ledger.InitiateKeeps | src/nexusops/domain/warehouse/transfers.py:40-75 | initiating a positive transfer keeps both |
| Ledger.ShipKeeps | src/nexusops/domain/warehouse/transfers.py:77-84 | shipping keeps both |
| Ledger.ReceiveKeeps | src/nexusops/domain/warehouse/transfers.py:86-119 | a receipt of no more than was transferred keeps both, at a new destination row too; a refused one changes nothing |
| Ledger.TransferCovered | src/nexusops/domain/warehouse/transfers.py:97-101 | in an invariant state the source's in_transit covers every outstanding transfer, so the receipt clamp never fires |
| Ledger.ReceiptConservesIff | src/nexusops/domain/warehouse/transfers.py:86-119 | a receipt conserves the network's units if and only if the source's home row shows at least as many in transit; without such a row, if and only if it is of nothing |
| Ledger.NextKeeps | src/nexusops/domain/inventory/allocation.py:76-227 | every step of the ledger machine keeps the invariant and conserves allocated, moving and total units |
| Ledger.RunKeeps | src/nexusops/domain/inventory/allocation.py:76-227 | over every run mixing allocation, confirmation, release, expiry, extension and transfers, reserved equals the active reservations, availability stays non-negative, and the three amounts are conserved |
| Ledger.RunAdvances | src/nexusops/domain/warehouse/transfers.py:86-119 | over every run whatever its steps, a settled reservation and a received transfer never change again: nothing is received twice |
| Ledger.StockedNetworkStarts | src/nexusops/domain/inventory/allocation.py:65-75 | a stocked network without reservations or transfers satisfies the invariant |
| Reconciliation.InventoryReconciler.ReconcileSku | src/nexusops/domain/inventory/reconciliation.py:64-101 | the discrepancies of one SKU: the counter mismatch, then each negative availability |
| Reconciliation.InventoryReconciler.ReconcileWarehouse | src/nexusops/domain/inventory/reconciliation.py:53-115 | the report lists the SKUs' discrepancies in the order the set was walked; balanced if and only if it is empty |
| Reconciliation.InventoryReconciler.AutoRepairReservationMismatch | src/nexusops/domain/inventory/reconciliation.py:128-155 | rewrites the home row's counter to the sum of active reservations, or reports there was nothing to repair |
| Reconciliation.MismatchesFound | src/nexusops/domain/inventory/reconciliation.py:64-101 | whatever the order of iteration, a mismatched SKU is listed exactly once |
| SyncLaws.VerdictIsExact | src/nexusops/domain/inventory/reconciliation.py:53-115 | the report is empty exactly when counters match and no row is overdrawn at the warehouse |
| SyncReports.CleanExactly | src/nexusops/domain/inventory/reconciliation.py:53-115 | the report is empty if and only if, for each row of the warehouse, the reserved counters of its SKU add up to the active reservations and the row is not overdrawn |
| SyncReports.EverySkuChecked | src/nexusops/domain/inventory/reconciliation.py:55-60 | the SKUs checked are those of the warehouse's rows, each once |
| SyncReports.SkuReported | src/nexusops/domain/inventory/reconciliation.py:64-101 | every field of every discrepancy of a SKU: the mismatch, severe beyond ten units, then the overdrawn rows in table order |
| SyncLaws.ReconcilerNeverComplains | src/nexusops/domain/inventory/reconciliation.py:53-115 | on every state the engines reach from an invariant one, the reconciler finds nothing |
| InventorySync.InventorySyncService.RepairFound | src/nexusops/services/inventory_sync_service.py:72-85 | repairs the found mismatches in order, counting the repaired and the failures |
| InventorySync.InventorySyncService.InvalidateCache | src/nexusops/services/inventory_sync_service.py:87-100 | deletes the warehouse's inventory entries and all network-visibility entries |
| InventorySync.InventorySyncService.SyncWarehouse | src/nexusops/services/inventory_sync_service.py:64-111 | reconcile, repair and invalidate as one operation; every field of its result, the rows and the cache store as functions of what was there before |
| InventorySync.InventorySyncService.SyncNetwork | src/nexusops/services/inventory_sync_service.py:113-130 | syncs every active warehouse in turn: each result, the totals, the rows and the cache store |
| SyncReports.ResultReads | src/nexusops/services/inventory_sync_service.py:64-111 | a sync's counts read off the rows before it: SKUs, mismatches plus overdrawn rows, and the mismatches with and without a home row |
| SyncReports.ResultsAddUp | src/nexusops/services/inventory_sync_service.py:113-130 | one result per active warehouse in order, the totals being their sums |
| SyncReports.NetworkSyncDrops | src/nexusops/services/inventory_sync_service.py:87-90 | exactly the network entries and the inventory entries of the warehouses visited are dropped |
| SyncLaws.RepairEffect | src/nexusops/domain/inventory/reconciliation.py:128-155 | a repair touches one counter of one SKU at one warehouse; the mismatch remains exactly when there is no home row or units are reserved on other rows |
| SyncLaws.RepairAllEffect | src/nexusops/services/inventory_sync_service.py:72-85 | repairing a whole report cures exactly the repairable SKUs, counts them, and leaves all other reserved values alone |
| SyncLaws.SyncCures | src/nexusops/services/inventory_sync_service.py:64-111 | which mismatches a sync cures, exactly, and that nothing else is touched |
| SyncLaws.SecondSyncRepairsNothingIff | src/nexusops/services/inventory_sync_service.py:64-111 | a second sync repairs zero if and only if no repairable SKU had units reserved outside its home row |
| SyncLaws.FoundAllRepairedIff | src/nexusops/services/inventory_sync_service.py:64-111 | repaired never exceeds found, and equals it exactly at a curable warehouse |
| SyncLaws.SyncAllCounts | src/nexusops/services/inventory_sync_service.py:113-130 | the same over the network; warehouses not visited are untouched |
| SyncLaws.HealthyIff | src/nexusops/services/inventory_sync_service.py:43-45 | with repair, a network sync is healthy if and only if no row of an active warehouse was overdrawn and every mismatch had a home row; without, if and only if there was no discrepancy at all |
| SyncLaws.RepairMayOverdraw | src/nexusops/services/inventory_sync_service.py:43-45 | one family of inputs: a healthy verdict that leaves a state the next reconciliation complains about |
| SyncLaws.SyncThenCleanIff | src/nexusops/services/inventory_sync_service.py:64-85 | the reconciliation after a repairing sync is clean if and only if every mismatched SKU has a home row and no units reserved elsewhere, and every row bears the rewritten counter |
| SyncLaws.DrySync | src/nexusops/services/inventory_sync_service.py:64-85 | without repair a sync changes no row and repairs nothing |
| Visibility.VisibilityLists | src/nexusops/repositories/inventory.py:52-73 | network visibility lists each warehouse with a row of the SKU once, with the sums of on hand and reserved over its rows and what is left after reserved, allocated, damaged and quarantined units, not below zero |
| Visibility.VisibilitySame | src/nexusops/repositories/inventory.py:52-73 | visibility depends only on the totals of the SKU's rows |
| Visibility.VisibilityIgnoresNewRow | src/nexusops/repositories/inventory.py:52-73 | a row of another SKU does not show |
| RedisCacheModel.RedisCache.InvalidateInventory | src/nexusops/cache/redis_cache.py:57-67 | deletes the warehouse-SKU, safety-stock and network entries of the SKU, nothing else |
| RedisCacheModel.RedisCache.InvalidateAll | src/nexusops/cache/redis_cache.py:79-85 | deletes every matching key and returns how many there were |
| InventoryServiceModel.InventoryService.AllocateForOrderLine | src/nexusops/services/inventory_service.py:42-66 | allocates and, only if that succeeds, invalidates the entries of every warehouse drawn on |
| InventoryServiceModel.InventoryService.GetNetworkVisibility | src/nexusops/services/inventory_service.py:68-89 | serves the cached lines or recomputes and caches them |
| InventoryServiceModel.InventoryService.AdjustInventory | src/nexusops/services/inventory_service.py:107-134 | changes on_hand by the delta, creating the row if needed, and invalidates the SKU |
| InventoryServiceModel.AdjustmentMoves | src/nexusops/services/inventory_service.py:107-134 | on hand changes by the delta at one warehouse and SKU and nothing else; without a home row one is made and a negative delta counts as nothing |
| InventoryServiceModel.AllocationShows | src/nexusops/services/inventory_service.py:42-89 | after a successful allocation a read, cached or not, shows every warehouse as before with exactly the units drawn from it moved from available to reserved |
| InventoryServiceModel.DrawsDrop | src/nexusops/services/inventory_service.py:47-51 | exactly the SKU's entries of the warehouses drawn on and its network entry are dropped |
| InventoryServiceModel.ServeHoldsStock | src/nexusops/services/inventory_service.py:42-134 | no service step puts available stock outside home rows |
| InventoryServiceModel.ServeCoherent | src/nexusops/services/inventory_service.py:42-134 | from a state whose cached network entries equal the recomputed ones, a service step, sync or expiry leads to another such state exactly unless it is an allocation of a cached SKU that writes a balance before it raises |
| InventoryServiceModel.CachedReadsAreFresh | src/nexusops/services/inventory_service.py:68-89 | over every run of the service without such an allocation, with arbitrary expiry, cached and uncached reads return the same lines |
| InventoryServiceModel.HomeStockNeverStale | src/nexusops/services/inventory_service.py:42-134 | when home rows hold all stock that is shown, no run contains such an allocation |
| InventoryServiceModel.FailedAllocationCoherentIff | src/nexusops/services/inventory_service.py:42-66 | after an allocation, whatever its outcome, the cache is right exactly unless the SKU is cached, the first draw is covered by its home row and a later one is not |
| InventoryServiceModel.StaleAfterRaise | src/nexusops/services/inventory_service.py:42-66 | a concrete state and request that leave a stale entry |
| InventoryServiceModel.ReleaseBehindTheCacheGoesStale | src/nexusops/domain/inventory/allocation.py:215-227 | a release made through the engine leaves the cache right if and only if its SKU is not cached |
| Planning.FulfillmentPlanner.PlanFulfillment | src/nexusops/domain/fulfillment/planning.py:61-89 | the four refusals, and otherwise the allocation of the lines over the selected warehouses, the plan built from it, and the order status |
| Planning.FulfillmentPlanner.AllocateInventory | src/nexusops/domain/fulfillment/planning.py:123-150 | nested loops over warehouses and open lines, passing over an allocation that raises |
| Planning.FulfillmentPlanner.Build | src/nexusops/domain/fulfillment/planning.py:152-177 | one plan line per draw, and the partial flag |
| PlanningLaws.AvailabilityFalls | src/nexusops/domain/fulfillment/planning.py:123-150 | no allocation raises the network availability of any SKU, whether it succeeds or raises half-way |
| PlanningLaws.ShortfallDrains | src/nexusops/domain/fulfillment/planning.py:123-150 | a split allocation that ends short leaves nothing of the SKU anywhere |
| PlanningLaws.AllocationSettles | src/nexusops/domain/fulfillment/planning.py:134-148 | the first success settles a line: later warehouses pass it over or find nothing |
| PlanningLaws.PlannedIsGrowth | src/nexusops/domain/fulfillment/planning.py:152-177 | the planned quantities of a line add up to what its results allocated |
| PlanningLaws.BackordersListed | src/nexusops/domain/fulfillment/planning.py:152-177 | the plan is partial exactly when some result has a backorder, each such line listed once |
| PlanningLaws.BackordersInOrder | src/nexusops/domain/fulfillment/planning.py:152-177 | the lines in backorder are listed in the order of their results |
| PlanningLaws.PlanIsSound | src/nexusops/domain/fulfillment/planning.py:123-177 | on any tables, raises half-way included: no line is over-allocated, allocated plus backorder is ordered on every line that got stock, planned equals growth, and partial means exactly that some line that got stock ends short |
| PlanningLaws.PlanReservesItsLines | src/nexusops/domain/fulfillment/planning.py:123-150 | whatever raises on the way, planning only appends reservations, each for a line and SKU of the order, active and good for half an hour |
| PlanningLaws.TriedWarehouseGivesFirst | src/nexusops/domain/fulfillment/planning.py:134-142 | a line that gets stock while a selected warehouse is tried gets it from that warehouse first, as much as it can give |
| PlanningLaws.NothingAvailableStillPlanned | src/nexusops/domain/fulfillment/planning.py:179-185 | an order for which nothing is available gets an empty plan that is not partial, and nothing changes |
| PlanningLaws.LinesGetExpected | src/nexusops/domain/fulfillment/planning.py:123-150 | what planning gives each line, from the tables beforehand: nothing if every selected warehouse fails it, otherwise all it needs or, split, all there is |
| PlanningLaws.PlannedYetUnfilledIff | src/nexusops/domain/fulfillment/planning.py:179-185 | an order is marked planned with a line unfilled if and only if some open line fails at every selected warehouse and, if split, every other open line finds all it needs |
| PlanningLaws.HomeStockGetsNothingIff | src/nexusops/domain/fulfillment/planning.py:134-148 | with the SKU's stock in home rows, a line fails everywhere if and only if there is nothing to split, or no warehouse holds the whole |
| PlanningLaws.HomeStockUnfilledIff | src/nexusops/domain/fulfillment/planning.py:179-185 | with the stock in home rows, an order is marked planned with a line unfilled if and only if for some open line there is nothing and, if split, every open line that has stock has enough; without split, if and only if no warehouse holds the whole of some open line |
| PlanningLaws.SwallowedStopUnfilled | src/nexusops/domain/fulfillment/planning.py:143-148 | with stock on a location row a swallowed raise leaves a line open though the network shows all it needs |
| PlanningLaws.PlanLineNamesItsReservationIff | src/nexusops/domain/fulfillment/planning.py:152-177 | a plan line names the reservation holding its own units if and only if it is the first of its result |
| Placement.FillNeed | src/nexusops/domain/optimization/placement.py:78-97 | one need filled from the donors while the iterated list and the rebound one differ: exact units, donors within their surplus |
| Placement.OneMore | src/nexusops/domain/optimization/placement.py:78-97 | one more recommendation keeps the books between donors, left-over surplus and recommendations |
| Placement.Rebalance | src/nexusops/domain/optimization/placement.py:64-104 | moves exactly min(total surplus, total deficit), no donor below or receiver above its limit, at most donors + receivers - 1 recommendations, exact savings |
| Placement.AnalyzeNetwork | src/nexusops/domain/optimization/placement.py:55-117 | on the balance rows, with the default policy 50 and 25: only warehouses above reorder plus twice safety give and keep reorder plus safety; none is lifted above its reorder point; either every shortage is filled or every donor has given all it may; units, savings of 25 less 0.5 a unit each, and priority exact |
| Placement.LinesSettled | src/nexusops/domain/optimization/placement.py:78-97 | when the smaller of the two totals moves, every line of that side gives or gets its whole amount |
| Placement.ListedFaithfully | src/nexusops/domain/optimization/placement.py:64-77 | surplus and deficit lists come from the visible lines, one entry per warehouse, adding up |
| Placement.LineIsKept | src/nexusops/domain/optimization/placement.py:78-97 | what the bounds on the lists mean for a line of the network |
| Placement.TooFewLines | src/nexusops/domain/optimization/placement.py:58-63 | with fewer than two lines there is nothing to move |
| FillRate.OptimizeFillRate | src/nexusops/domain/optimization/engine.py:104-130 | refuses a missing SKU; otherwise shares only from warehouses with the SKU, within what is left on their rows, together the demand or all there is; the rate is the part of the demand the stock meets, one at most |
| FillRate.ServeInOrder | src/nexusops/domain/optimization/engine.py:114-121 | the loop over the ranked lines takes from each what the remaining demand asks for |
| FillRate.GreedyCovers | src/nexusops/domain/optimization/engine.py:114-121 | the greedy shares cover min(demand, stock), each within its line |
| FillRate.ServesAllItCan | src/nexusops/domain/optimization/engine.py:109-121 | the optimiser serves min(demand, total available) and stays within every warehouse |
| FillRate.EqualStockAsListed | src/nexusops/domain/optimization/engine.py:116 | warehouses with as much stock are drawn on in the order they were listed |
| FillRate.UsedBoundsServed | src/nexusops/domain/optimization/engine.py:116-121 | any feasible shares over c lines serve no more than the c largest hold |
| FillRate.FewerLinesServeLess | src/nexusops/domain/optimization/engine.py:116-121 | fewer lines than the greedy choice uses cannot hold what it serves |
| FillRate.UsesFewestWarehouses | src/nexusops/domain/optimization/engine.py:116-121 | no feasible allocation serving as much uses fewer warehouses |
| FillRate.FillRateIsHonest | src/nexusops/domain/optimization/engine.py:113-121 | for a demand of at least one unit, served equals fill rate times demand |
| FillRate.VisibleLines | src/nexusops/repositories/inventory.py:52-73 | the visible lines are distinct and non-negative, so the results apply to them |
| Consolidation.ConsolidationEngine.PackRegion | src/nexusops/domain/transportation/consolidation.py:67-95 | packs a region's shipments in order: groups within limits, closed for cause, rows pointing back, savings on the last group only, all other rows untouched |
| Consolidation.ConsolidationEngine.GroupByRegion | src/nexusops/domain/transportation/consolidation.py:58-61 | the dictionary of regions: keys in order of first meeting, buckets in candidate order |
| Consolidation.ConsolidationEngine.ConsolidateWindow | src/nexusops/domain/transportation/consolidation.py:47-107 | every region packed on its own in turn; groups, counts, savings and group ids exact |
| Consolidation.RegionsPartition | src/nexusops/domain/transportation/consolidation.py:58-61 | the regions' buckets together hold each candidate exactly once |
| Consolidation.WindowGrows | src/nexusops/domain/transportation/consolidation.py:67-95 | packing one more region leaves the groups and back pointers of the earlier ones intact |
| ConsolidationLaws.FewGroups | src/nexusops/domain/transportation/consolidation.py:73-84 | a region opens at most 1 + n/10 + W/250 groups for n shipments of total effective weight W |
| ConsolidationLaws.ClosedGroupsCharged | src/nexusops/domain/transportation/consolidation.py:73-84 | every closed group is paid for by its ten members or by its own and its successor's weight |
| ConsolidationLaws.OneGroupIff | src/nexusops/domain/transportation/consolidation.py:73-84 | a region needs a second group exactly when its shipments do not fit one |
| ConsolidationLaws.LightestFirst | src/nexusops/domain/transportation/consolidation.py:70 | a region is packed in ascending order of weight, a missing weight counting as zero |
| ConsolidationLaws.EqualWeightsAsListed | src/nexusops/domain/transportation/consolidation.py:70 | shipments of the same weight are packed in candidate order |
| ConsolidationLaws.RegionsAsMet | src/nexusops/domain/transportation/consolidation.py:58-61 | regions come in the order in which their first candidates do |
| ConsolidationLaws.BucketInOrder | src/nexusops/domain/transportation/consolidation.py:58-61 | a region's bucket lists its candidates in their order |
| ConsolidationLaws.GroupsWithinLimits | src/nexusops/domain/transportation/consolidation.py:67-95 | a group holds at most ten shipments and, unless one alone, 500 kg, a missing or zero weight counting ten; it is left only when full or too heavy for the next; the last of a region books five per shipment, the others nothing |
| ConsolidationLaws.WindowTouches | src/nexusops/domain/transportation/consolidation.py:47-57 | exactly the planned, ungrouped rows of the warehouse with pickup in the window, ends included, get a group, and nothing else changes |
| ConsolidationLaws.WindowPartitions | src/nexusops/domain/transportation/consolidation.py:58-95 | the groups of a window hold exactly the candidates, each once |
| ConsolidationLaws.EachCandidateGrouped | src/nexusops/domain/transportation/consolidation.py:86-89 | every candidate's row names a group of its own region that lists it |
| ConsolidationLaws.SavingsBooked | src/nexusops/domain/transportation/consolidation.py:91-95 | for non-negative weights five per shipment is booked if and only if every region's shipments fit one group (one at most, or ten at most of 500 kg at most in all); otherwise less |
| ConsolidationLaws.RegionsSeparate | src/nexusops/domain/transportation/consolidation.py:109-112 | two addresses share a region if and only if state and postal prefix agree, or one state is the other, a dash and the beginning of the other's prefix, the rest matching |
| ConsolidationLaws.DashedStateMerges | src/nexusops/domain/transportation/consolidation.py:109-112 | two different states that fall into one region |
| Saga.WorkflowContext.MarkStepComplete | src/nexusops/core/context.py:62-65 | removes the first occurrence from pending, if any, and appends to completed |
| Saga.RemovesFirst | src/nexusops/core/context.py:62-65 | the first occurrence goes and the rest keep their order |
| Saga.WorkflowOrchestrator.Execute | src/nexusops/core/workflow.py:34-60 | runs the pending steps in order; on failure compensates this run's finished steps in exact reverse order and reports the failed step |
| Saga.WorkflowOrchestrator.RunSteps | src/nexusops/core/workflow.py:38-45 | the forward loop, ended by the last step or by one that raises |
| Saga.WorkflowOrchestrator.Compensate | src/nexusops/core/workflow.py:62-73 | calls each compensable step once, last first, going on when one raises |
| Saga.StepsConserved | src/nexusops/core/context.py:62-65 | pending and completed steps are conserved as a multiset at every point of every run |
| Saga.OneStep | src/nexusops/core/workflow.py:38-58 | what one step of the run does: skipped if not pending, recorded if it finishes, and, if it raises, stopping the run with the world as its handler left it |
| Saga.CompletedInOrder | src/nexusops/core/workflow.py:38-45 | completed grows by the names of the steps that ran, in workflow order; a failed step stays pending |
| Saga.PendingExact | src/nexusops/core/workflow.py:38-45 | a run without failure takes off pending exactly one occurrence per step of that name |
| Saga.SuccessCompletesIff | src/nexusops/core/context.py:70-72 | after success the context is complete if and only if the workflow has a step for every pending name |
| Saga.FreshRunDoesAll | src/nexusops/core/workflow.py:34-60 | started without a context, a successful run does every step once, in order |
| Saga.FailureRestores | src/nexusops/core/workflow.py:62-73 | if each compensation inverts its handler, uncompensated steps have no effect and failing handlers none, a failed run returns the state it started from |
| OptimisticLocking.VersionedRepository.UpdateWithVersion | src/nexusops/repositories/base.py:44-66 | updates if and only if id and version match, bumping the version; otherwise raises and changes nothing |
| OptimisticLocking.NoLostUpdate | src/nexusops/repositories/base.py:44-66 | any interleaving of readers and writers ends in the successful updates applied one after another, each computed from its predecessor's result |
| OptimisticLocking.VersionsContiguous | src/nexusops/repositories/base.py:50-58 | a row's version grows by one per successful update, each made at the version reached before it |
| OptimisticLocking.OneWinnerPerVersion | src/nexusops/repositories/base.py:50-66 | at most one update succeeds per version of a row |
| OptimisticLocking.BlindWriteTakesBack | src/nexusops/domain/inventory/allocation.py:208-213 | a writer that changes a counter in place, as the engines do, takes back exactly what the counter has gained since its reading, and agrees with the serial update if and only if that is nothing |
| OptimisticLocking.BlindWritersKeepOnlyTheLast | src/nexusops/domain/inventory/allocation.py:208-213 | of any number of such writers from one reading only the last one's change remains, where serial writers add up |
| EventLog.EventStore.Publish | src/nexusops/events/bus.py:39-67 | appends the event under the next number of its aggregate |
| EventLog.EventStore.ValidateAggregate | src/nexusops/events/ordering.py:33-60 | lists every break against the predecessor's number; empty if and only if the sorted numbers are exactly 1..n |
| EventLog.EventStore.GetExpectedNextSequence | src/nexusops/events/ordering.py:78-84 | agrees with the number the bus would assign, on any log |
| EventLog.EventStore.ReplayAggregate | src/nexusops/events/replay.py:53-96 | an invalid log gives one error and visits nothing; a valid one visits the handled events from the given number, replayed plus errors being their count |
| EventLog.BreaksListed | src/nexusops/events/ordering.py:33-60 | the violations are, in order, exactly the events that do not follow their predecessor, with expected and actual number and event |
| EventLog.VisitedListed | src/nexusops/events/replay.py:73-79 | a replay visits, in order, exactly the events from the given number on that have a handler |
| EventLog.FailuresListed | src/nexusops/events/replay.py:76-86 | its errors are, in order, exactly the visited events whose handler raised |
| EventLog.ValidIffGapless | src/nexusops/events/ordering.py:33-60 | an aggregate validates exactly when its n events, in whatever order stored, hold every number from 1 to n |
| EventLog.LastIsMax | src/nexusops/repositories/events.py:17-23 | the last listed event carries the highest number, also for empty and negative ones |
| EventLog.SequentialNumbering | src/nexusops/events/bus.py:39-56 | published one after another, every aggregate's events are numbered 1..n in publication order |
| EventLog.ReplayIsSuffix | src/nexusops/events/replay.py:73-74 | on a valid log a replay from k is a replay of everything after the first k - 1 events |
| EventLog.ReplayInOrder | src/nexusops/events/replay.py:73-86 | visited numbers strictly increase, and every handled event from k on is visited |
| EventLog.RaceSafeIff | src/nexusops/events/bus.py:40-56 | two publishers that read before either writes leave all aggregates valid if and only if they publish to different ones |
| PurchaseOrders.PurchaseOrderManager.Submit | src/nexusops/domain/procurement/purchase_orders.py:52-67 | submits a draft with lines from an active supplier; each refusal with its error |
| PurchaseOrders.PurchaseOrderManager.Acknowledge | src/nexusops/domain/procurement/purchase_orders.py:69-76 | acknowledges a submitted order, keeping the old delivery date when none is given |
| PurchaseOrders.PurchaseOrderManager.RecordReceipt | src/nexusops/domain/procurement/purchase_orders.py:78-116 | the pass over the lines, including what it has written when it raises, and the status that follows |
| PurchaseOrders.PurchaseOrderManager.Close | src/nexusops/domain/procurement/purchase_orders.py:118-122 | closes a received or partially received order |
| PurchaseOrders.PurchaseOrderManager.Cancel | src/nexusops/domain/procurement/purchase_orders.py:124-131 | cancels an order nothing was received for, noting the reason |
| PurchaseOrders.PurchaseOrderManager.CalculateOpenPOValue | src/nexusops/domain/procurement/purchase_orders.py:156-163 | the open value of a warehouse, by its nested loops |
| PurchaseOrders.PurchaseOrderManager.Request | src/nexusops/db/session.py:45-54 | a call in its own session: committed on return, rolled back on a raise |
| PurchaseOrderLaws.RefusedExactly | src/nexusops/domain/procurement/purchase_orders.py:22-131 | which requests are refused, with which error, by status, lines and supplier |
| PurchaseOrderLaws.AcceptedChanges | src/nexusops/domain/procurement/purchase_orders.py:52-131 | what an accepted request makes of its order, field by field, and that no other order changes; a receipt leaves it received if and only if every line is closed, else partially received if anything has come in |
| PurchaseOrderLaws.PassSound | src/nexusops/domain/procurement/purchase_orders.py:91-105 | with non-negative quantities the pass keeps every line sound and takes nothing back, even when it raises |
| PurchaseOrderLaws.PassTakesEach | src/nexusops/domain/procurement/purchase_orders.py:91-105 | each line before the refused one takes its quantity exactly once, the rest are untouched |
| PurchaseOrderLaws.ReceiptAcceptedIff | src/nexusops/domain/procurement/purchase_orders.py:95-101 | a receipt is accepted exactly when no line would be over-received |
| PurchaseOrderLaws.NextKeeps | src/nexusops/domain/procurement/purchase_orders.py:52-131 | every request keeps all orders sound and moves each status along an edge or not at all |
| PurchaseOrderLaws.RunSound | src/nexusops/domain/procurement/purchase_orders.py:22-131 | over every run no line is over-received, closed means fully received, and no draft, submitted, acknowledged or cancelled order has receipts |
| PurchaseOrderLaws.RunLegal | src/nexusops/domain/procurement/purchase_orders.py:107-113 | every status change of every run, the unvalidated ones too, is an edge of PO_TRANSITIONS or a self-loop |
| PurchaseOrderLaws.StatusHasItsRequest | src/nexusops/domain/procurement/purchase_orders.py:52-131 | over every run a status changes only by the request it stands for: an order turns closed at close alone, cancelled at cancel alone |
| PurchaseOrderLaws.DoneStaysDone | src/nexusops/domain/procurement/purchase_orders.py:22-40 | a received order can only be closed; closed and cancelled are final |
| PurchaseOrderLaws.ReceiptLowersOpenValue | src/nexusops/domain/procurement/purchase_orders.py:156-163 | a successful receipt lowers the warehouse's open value by exactly quantity times unit cost, also when the order leaves the open list, and no other warehouse's |
| PurchaseOrderLaws.OpenValueMoves | src/nexusops/domain/procurement/purchase_orders.py:156-163 | submitting adds what is ordered to the warehouse's open value, cancelling takes it back, closing writes off what has not come in, acknowledging changes nothing |
| PurchaseOrderLaws.NegativeReceiptSoundIff | src/nexusops/domain/procurement/purchase_orders.py:91-105 | with arbitrary quantities the lines stay sound if and only if none falls below zero and no closed line is reduced |
| PurchaseOrderLaws.SwallowedRefusalIff | src/nexusops/domain/procurement/purchase_orders.py:91-131 | without the rollback, an order cancelled after a refused receipt is free of receipts if and only if nothing comes in before the first line that would be over-received |
| DockScheduling.DeliveryScheduler.GenerateSlots | src/nexusops/domain/transportation/scheduling.py:72-90 | replaces the warehouse's slots by empty ones, three per weekday at eight, keeping every slot booked once per schedule issued and within capacity |
| DockScheduling.DeliveryScheduler.FindBestSlot | src/nexusops/domain/transportation/scheduling.py:133-141 | the first nearest slot with room, or the first with room |
| DockScheduling.DeliveryScheduler.Book | src/nexusops/domain/transportation/scheduling.py:114-121 | takes one place; the door number is the place of the schedule in its slot |
| DockScheduling.DeliveryScheduler.PlaceOne | src/nexusops/domain/transportation/scheduling.py:108-123 | one known shipment: its slot, door and new preferred time, or a conflict |
| DockScheduling.DeliveryScheduler.PlaceAll | src/nexusops/domain/transportation/scheduling.py:101-123 | the loop over the shipments against the slots that had room |
| DockScheduling.DeliveryScheduler.ScheduleShipments | src/nexusops/domain/transportation/scheduling.py:92-131 | the whole call, generating slots if there are none; all other slots untouched, capacity and doors kept |
| DockScheduling.DeliveryScheduler.Reschedule | src/nexusops/domain/transportation/scheduling.py:143-156 | books a listed, non-full slot with that id, or nothing when there is none; no place is given back and no door assigned |
| DockScheduling.WeekOfSlots | src/nexusops/domain/transportation/scheduling.py:72-88 | whatever the start, seven more days bring fifteen more slots |
| DockScheduling.SlotsOnWeekdays | src/nexusops/domain/transportation/scheduling.py:72-88 | the slots are exactly those at eight o'clock in the three windows of each day from the start on that is neither Saturday nor Sunday, by date and window |
| DockScheduling.OpenInOrder | src/nexusops/domain/transportation/scheduling.py:99 | the slots with room keep their order |
| DockLaws.BestIsNearest | src/nexusops/domain/transportation/scheduling.py:133-141 | the search fails exactly when every slot is full, and otherwise finds the first nearest one with room |
| DockLaws.PlacesExactly | src/nexusops/domain/transportation/scheduling.py:101-123 | a call places exactly min(found shipments, free capacity) |
| DockLaws.EachIdOnce | src/nexusops/domain/transportation/scheduling.py:101-123 | every id is listed once per occurrence, as scheduled or as unscheduled with its own conflict |
| DockLaws.EachPlacementNearest | src/nexusops/domain/transportation/scheduling.py:108-123 | each placement takes, in its turn, a nearest slot with room and that slot's next door |
| DockLaws.FreshWeekPlaces | src/nexusops/domain/transportation/scheduling.py:96-99 | a warehouse without slots gets fifteen and places up to 120 of the shipments found |
| DockLaws.DoorsApart | src/nexusops/domain/transportation/scheduling.py:120 | no two schedules share a slot and a dock door |
| Shipments.ShipmentGenerator.GenerateFromPlan | src/nexusops/domain/fulfillment/shipment_generation.py:52-100 | a draft shipment with its first history entry and two stops; the plan becomes executing |
| Shipments.GenerationAdds | src/nexusops/domain/fulfillment/shipment_generation.py:52-100 | the rows generation adds, field by field, and the plan it marks |
| Shipments.ShipmentGenerator.TransitionState | src/nexusops/domain/fulfillment/shipment_generation.py:102-131 | moves along an allowed edge, recording it; refuses everything else without a change |
| Shipments.TransitionMoves | src/nexusops/domain/fulfillment/shipment_generation.py:21-131 | a transition is taken along the listed moves and no other, and writes status, history entry with time and origin, version and delivery time of its own row only |
| Shipments.ShipmentGenerator.GenerateForOrder | src/nexusops/domain/fulfillment/shipment_generation.py:133-141 | one new planned shipment per live plan of the order, up to the first that points to a missing order or warehouse, which raises |
| Shipments.SecondCallDuplicates | src/nexusops/domain/fulfillment/shipment_generation.py:133-141 | asking a second time makes as many shipments again |
| Shipments.RunSound | src/nexusops/domain/fulfillment/shipment_generation.py:102-131 | over every run, each history is a path of VALID_TRANSITIONS from draft with correct previous links, version is its length, and delivery time is set exactly when delivered |
| Shipments.TerminalIsLast | src/nexusops/domain/fulfillment/shipment_generation.py:37-38 | nothing follows delivered or cancelled, and these are the only final statuses |
| Shipments.DeliveredWasShipped | src/nexusops/domain/fulfillment/shipment_generation.py:21-39 | a delivered history contains planned, label generated and in transit, in this order |
| Shipments.EveryPathReached | src/nexusops/domain/fulfillment/shipment_generation.py:102-131 | conversely, every path of the table from draft is the history of some run |

## Left out

- Row identity: rows are values in sequences, so two objects for one row, lazy loading and stale reads within a session
  (`autoflush=False`) are not modelled; queries see earlier writes. Delivery slots and workflow contexts are objects.
- Concurrency of sessions, except in `OptimisticLocking` and for two racing publishers in `EventLog`.
- Identifiers drawn at random, numbers such as `SHP-...`, correlation ids, audit records, log lines and metrics.
- Events published, tasks created and the Redis stream as side effects of the operations.
- FastAPI routes, authentication, websockets, migrations, the front end: input and output only.
- Ledger.RunKeeps: admissible runs start from a state in which rows with a location hold no available stock, transfer
  positive quantities and, where a receipt is not refused, receive no more than was transferred; without this, see
  `NeverMidLoopIffCoverable` and `ReceiptConservesIff` for what can happen.
- InventoryServiceModel.CachedReadsAreFresh: for runs without an allocation that goes stale in the sense of
  `ServeCoherent`. Entries are lines, not JSON text, and expire at any moment instead of after a time.
- Planning.FulfillmentPlanner.PlanFulfillment: the routing decision, and so the warehouses selected, is a parameter.
- PlanningLaws.PlannedYetUnfilledIff: for orders whose lines have different SKUs, when no try before the last selected
  warehouse stops half-way; lines of one SKU share what there is in turn, and a try that stops half-way takes stock that
  no line gets. `PlanIsSound` holds without either.
- ConsolidationLaws.FewGroups: for non-negative weights, and so the equivalence of `SavingsBooked`.
- `get_order_reservations`, `find_orders_with_expiring_soon`, `total_reserved_by_sku`: listings without updates.
- `reconcile_network` and `verify_sku_across_network`: concatenations of what is modelled.
- `analyze_all_skus` and `estimate_fill_rate_impact`: a loop over what is modelled, and a constant.
- `handle_partial_fulfillment`, the order router, and the planner's own workflow context.
- The numpy placement branch, cost and transportation branches of the optimisation engine, route planning, forecasting,
  safety stock, carrier and vendor scoring: library or floating-point numerics.
- Saga.FailureRestores: handlers act on the world, not on the step lists of their context; running a failed context
  again, whose compensated steps stay listed as completed, is not covered.
- `register_compensation` and the `compensations` list of the context, which `_compensate` does not use.
- `EventBus.subscribe`, `dispatch` and `process_pending`: with a `"*"` subscriber the stored handler list grows at every
  dispatch, so exactly-once delivery does not hold.
- `replay_pending_events`, and `rebuild_inventory_projection`, whose on-hand deltas are not filtered by warehouse.
- `list_overdue`, order dates and the currency of purchase orders; creation of purchase orders.
- `ReceivingService`, picking and cycle counts as steps of the ledger: they act on location rows and on damaged units
  outside the invariant. `adjust_inventory` appears in the service model only.
- The `TypeError` of `update_with_version` for models without a version column.
- Time zones and daylight saving in slot generation: the clock is UTC seconds.
- Addresses, weights, packages and carriers of a shipment; the two clock readings of a delivery are one.
- The order in which a set of SKUs is iterated is arbitrary in the model too: laws hold for every order.
