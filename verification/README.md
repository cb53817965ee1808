# Verified model of the warehouse database's triggers and data rewrites

The warehouse system keeps much of its logic inside PostgreSQL: PL/pgSQL triggers and functions that maintain
derived tables and guard invariants, and migrations that rewrite whole tables and promise to be reversible. This
project models that logic in Dafny and proves what it keeps, what it computes and when it fails.

How a database is modelled:

* A table is a map from row key to row, a nullable column is an `Option`, and a database is a class (`FinanceDb`,
  `LocationDb`, ...) whose fields are the tables. Trigger functions, `FOR` loops and the statements of a migration are
  methods that change those fields. Row order is left open: a scan takes any row not yet handled.
* Beside each class stands a specification on values (`Step`, `Upgrade`, `Merge`, ...) that says what a whole statement
  or migration does. The methods are proved to do exactly that, and the theorems are about the specification.
* The `Columns` modules say the same once more on the raw columns, without the helpers of the specification: what every row of
  every table is after each statement or migration, and exactly which rows make it fail.
* `RAISE`, a constraint violation, a failed cast to `INTEGER` or an `ON CONFLICT DO UPDATE` that would touch one row
  twice is `Aborted`, and leaves the state as it was.
* A statement is applied to all its rows before its AFTER ROW triggers run. A BEFORE ROW trigger sees the rows that the
  same `INSERT` has already written. Unique keys in the lot merge, the ledger collapse and its downgrade are checked row by
  row, as PostgreSQL does (`UniqueKeys`).

| modules | subject |
|---|---|
| `Sql`, `MapSums`, `UniqueKeys` | nullable columns and text functions, sums and GROUP BY over finite maps, unique keys while an UPDATE runs |
| `FinanceCache`, `FinanceColumns`, `FinanceTriggers` | the shipping cost lines, a join of four tables kept up to date by row triggers |
| `LocationBinding`, `LocationColumns`, `LocationTriggers` | one item and batch per location |
| `LotLedger`, `LotLedgerColumns`, `LotLedgerDb` | stock per lot as a projection of the ledger, and its reconciliation |
| `LotMerge`, `LotMergeColumns`, `LotMergeDb`, `LotMergeExamples` | the merge of duplicate INTERNAL lots |
| `BatchCollapse`, `BatchCollapseColumns`, `BatchCollapseDb`, `BatchCollapseExamples` | folding fake batch codes into the slot without a batch, and back |
| `SkuCutover`, `SkuCutoverColumns`, `SkuCutoverDb`, `SkuCutoverExamples` | promoting the SKU dictionary to attribute definitions, and back |
| `LotDates`, `FulfillmentStages`, `PurchaseOrders` | production dates from two sources, stages as timestamps, order status recalculation |
| `PickTasks`, `PickColumns`, `SurchargeConfig` | two trigger state machines |

## Where the code and its intent part

Each of these is proved, with the exact condition where there is one.

* The unbinding trigger of locations is declared `FOR EACH STATEMENT`, where `OLD` and `NEW` are null, so it never touches
  a location (`ShippedUnbindDoesNothing`). The per-row trigger it was meant to be would behave the same: the two
  protocols stay related exactly until an `UPDATE` or `DELETE` takes a location that only the shipped one still binds
  from quantity zero to another quantity (`UnbindEquivalence`), and then some insert tells them apart (`RefillDecides`).
* No trigger guards an `UPDATE` of stock. It keeps locations safe exactly when every row it leaves with stock matches the
  binding of its location (`StepKeepsSafe`, `RunKeepsSafe`); refilling an old row of a rebound location does not
  (`StaleIncreaseMixesItems`, reachable by `StaleRowsAreReachable`).
* The location health check counts distinct batches without nulls. It starts the protocol safe exactly when no
  positive stock row lacks a batch (`BackfillSafeExactly`, `UnbatchedStockSlipsThrough`).
* Stores are unique on the raw (platform, code), but joined up to case and surrounding spaces. Twins may be
  inserted while no record matches them (`TwinStoresAreReachable`); afterwards every record of that store is rejected
  (`TwinStoresBlockTheirRecords`).
* The lot merge aborts not only when a merge group owns two stock rows, but also when it owns two snapshots of a date
  or two ledger entries of a document line, and when two supplier codes are equal once normalised
  (`MergeSucceedsExactly`, and `LotMergeExamples` with an input for each).
* The collapse of fake codes aborts exactly when two ledger entries differ only in an erased code, or a sum overflows
  (`BatchCollapse.UpgradeSucceedsExactly`). It is not undone for an item that keeps stock under the literal code
  `__NULL_BATCH__` (`RoundTripExactly`, `SentinelStockIsNotRestored`). The backups are never cleared, so a second
  downgrade goes through exactly when there was no fake stock (`RepeatsExactly`).
* The production date downgrade erases dates that the upgrade did not write, when they equal the candidate
  (`LotDates.RoundTripExactly`, `OwnDateIsLost`).
* The SKU cutover rebinds a segment whose group is not of its template's kind to another definition if there is one,
  and fails otherwise. Groups of kind COMMON do not come back, and the downgrade fails on codes and names that the older
  tables cannot hold (`SkuCutover.UpgradeSucceedsExactly`, `UpgradeKeepsMeaning`, `GroupsRoundTrip`,
  `DowngradeSucceedsExactly`, and `SkuCutoverExamples` with inputs that fail).
* Recalculated order heads and lines disagree exactly when nothing arrived but something is booked negative, or when
  every line counts as full although one of them received nothing (`AgreesExactly`). The columns are plain integers
  (alembic/versions/ec0eafe4b6d5_purchase_order_phase2.py:80-87), and `NegativeReceiptDisagrees`, `EmptyOrderDisagrees`
  and `EmptyLineDisagrees` are inputs.
* A pick task's head stays DONE when a line is reopened. DONE heads are without open lines exactly as long as no
  statement writes an open line of a DONE head (`RunKeepsDoneClosed`, `ReopenedLineLeavesHeadDone`).
* A row in a shipping stage without `updated_at` would lose its stage silently (`StatusRoundTripExactly`); the column is
  declared not null in app/oms/orders/models/order_fulfillment.py:75-80.

## Model

| member | source | states |
|---|---|---|
| `FinanceCache.RunKeepsSound` | alembic/versions/31c5a51a372d_finance_shipping_cost_lines.py:69-308 | cache agreement: after every run of accepted and rejected statements on the four source tables there is exactly one line per record, each equals the recomputed join, and no record matches two stores |
| `FinanceCache.StepKeepsSound` | alembic/versions/31c5a51a372d_finance_shipping_cost_lines.py:153-308 | one accepted statement with all its row triggers keeps agreement, foreign keys and the one-store rule |
| `FinanceCache.VisitedCoversChanges` | alembic/versions/31c5a51a372d_finance_shipping_cost_lines.py:182-260 | a record that no OLD-key or NEW-key loop visits has the same recomputed line, and is still matched by at most one store |
| `FinanceCache.StoreChangeVisits` | alembic/versions/28e74f19a54f_oms_store_code_naming_cutover.py:478-516 | a record not reached through the OLD or NEW key of a changed store row keeps exactly its set of matching stores and their names |
| `FinanceCache.SecondMatchIsRefreshed` | alembic/versions/28e74f19a54f_oms_store_code_naming_cutover.py:478-526 | a record that would match two stores after a statement is always one that the statement refreshes |
| `FinanceCache.AcceptedExactly` | alembic/versions/28e74f19a54f_oms_store_code_naming_cutover.py:388-526 | a statement is accepted if and only if the constraints hold after it and no record then matches two stores: a second match always aborts in the refresh |
| `FinanceColumns.CacheIsTheJoin` | alembic/versions/28e74f19a54f_oms_store_code_naming_cutover.py:419-450 | in every reachable state a row is in the cache if and only if it is a row of the join written column by column: provider code and name are the provider's own where it has them and the record's otherwise, the warehouse name or the empty string, the joined store's name, and each other column the record's |
| `FinanceColumns.ExpectedIsJoined` | alembic/versions/28e74f19a54f_oms_store_code_naming_cutover.py:419-450 | where at most one store matches, the recomputed line is the one row of that query |
| `FinanceColumns.ProviderUpdateShows` | alembic/versions/31c5a51a372d_finance_shipping_cost_lines.py:204-220 | an UPDATE of provider code or name shows in the line of every record of the provider, in those columns only |
| `FinanceColumns.WarehouseUpdateShows` | alembic/versions/31c5a51a372d_finance_shipping_cost_lines.py:184-200 | an UPDATE of a warehouse name shows in the line of every record of the warehouse, in that column only |
| `FinanceColumns.StoreUpdateShows` | alembic/versions/28e74f19a54f_oms_store_code_naming_cutover.py:478-526 | after an UPDATE of stores each line shows the name of the store it joins to now, or none, and is otherwise unchanged |
| `FinanceColumns.AcceptedOnColumns` | alembic/versions/28e74f19a54f_oms_store_code_naming_cutover.py:388-526 | a statement is accepted if and only if no id is used twice, no row breaks a foreign or unique key, and no record has the platform up to case and the code up to spaces of two stores |
| `FinanceColumns.StatementWritesItsRows` | alembic/versions/31c5a51a372d_finance_shipping_cost_lines.py:262-308 | the four tables a statement leaves, row by row and column by column |
| `FinanceCache.RefreshSeqIsSetwise` | alembic/versions/28e74f19a54f_oms_store_code_naming_cutover.py:390-473 | any sequence of refresh calls, in any order and with repetitions, does what one unordered refresh of the same records does, aborts included |
| `FinanceCache.RefreshConfluence` | alembic/versions/28e74f19a54f_oms_store_code_naming_cutover.py:390-473 | two sequences of refresh calls over the same records give the same table, or both abort |
| `FinanceCache.RefreshRepairsExactly` | alembic/versions/28e74f19a54f_oms_store_code_naming_cutover.py:390-473 | from any line table without orphans, a sequence of refresh calls makes the cache equal the join if and only if it covers every record whose line is missing or differs |
| `FinanceCache.BackfillStartsSound` | alembic/versions/28e74f19a54f_oms_store_code_naming_cutover.py:528-533 | refreshing every record goes through if and only if no record matches two stores, and then the cache is the join |
| `FinanceCache.IncrementalEqualsRebuild` | alembic/versions/28e74f19a54f_oms_store_code_naming_cutover.py:528-533 | after any run, refreshing every record from an empty table rebuilds exactly the table that the triggers maintained |
| `FinanceCache.TwinStoresAreReachable` | alembic/versions/28e74f19a54f_oms_store_code_naming_cutover.py:136-142 | the raw key admits two stores that the join does not tell apart, in a sound state |
| `FinanceCache.TwinStoresBlockTheirRecords` | alembic/versions/28e74f19a54f_oms_store_code_naming_cutover.py:447-449 | from then on inserting any record of that store aborts |
| `FinanceTriggers.FinanceDb.RefreshLine` | alembic/versions/28e74f19a54f_oms_store_code_naming_cutover.py:390-473 | the upsert of one record: an abort with two joined stores, nothing without a warehouse, else its line alone is replaced and shows the joined rows column by column |
| `FinanceTriggers.FinanceDb.RefreshEach` | alembic/versions/28e74f19a54f_oms_store_code_naming_cutover.py:488-495 | the FOR loop of refresh calls amounts to the unordered refresh, whatever order the cursor takes |
| `FinanceTriggers.FinanceDb.StoreRefresh` | alembic/versions/28e74f19a54f_oms_store_code_naming_cutover.py:478-516 | the store trigger refreshes the records of NEW, then those of OLD, and stops at the first abort |
| `FinanceTriggers.FinanceDb.FireStoreRows` | alembic/versions/28e74f19a54f_oms_store_code_naming_cutover.py:518-526 | all row firings of one statement on stores together refresh the union of their records |
| `FinanceTriggers.FinanceDb.FireLookupRows` | alembic/versions/31c5a51a372d_finance_shipping_cost_lines.py:182-216 | all row firings on warehouses or providers together refresh every record that points at a changed row |
| `FinanceTriggers.FinanceDb.ApplyRows` | alembic/versions/31c5a51a372d_finance_shipping_cost_lines.py:167-180 | the four tables after a statement, and the lines removed with deleted records |
| `FinanceTriggers.FinanceDb.FireTriggers` | alembic/versions/31c5a51a372d_finance_shipping_cost_lines.py:262-308 | which triggers fire, given the statement and its SET list, and the records they refresh |
| `FinanceTriggers.FinanceDb.Execute` | alembic/versions/31c5a51a372d_finance_shipping_cost_lines.py:69-308 | a statement with its triggers commits as a whole or changes nothing |
| `FinanceTriggers.FinanceDb.Backfill` | alembic/versions/31c5a51a372d_finance_shipping_cost_lines.py:310-315 | the refresh of every record that ends the migration |
| `LocationBinding.ShippedUnbindDoesNothing` | alembic/versions/2ec8ea5fe9f2_enforce_single_item_batch_per_location_.py:119-140 | with OLD and NEW null the unbinding trigger changes no location |
| `LocationBinding.UnbindEquivalence` | alembic/versions/2ec8ea5fe9f2_enforce_single_item_batch_per_location_.py:69-140 | bisimulation: the shipped protocol and the one that unbinds per row stay related through a run if and only if no accepted UPDATE or DELETE refills a location that only the shipped one still binds; they then accept the same statements |
| `LocationBinding.StepAgreesExactly` | alembic/versions/2ec8ea5fe9f2_enforce_single_item_batch_per_location_.py:69-140 | the same for one statement |
| `LocationBinding.UnbindNeverMatters` | alembic/versions/2ec8ea5fe9f2_enforce_single_item_batch_per_location_.py:69-140 | from one starting state: same verdicts, same stock, same binding of every location whose quantity is not zero |
| `LocationBinding.OrdinaryChangesNeverRefill` | alembic/versions/2ec8ea5fe9f2_enforce_single_item_batch_per_location_.py:119-140 | deletes, decreases, and increases in non-empty locations refill nothing |
| `LocationBinding.RefillDecides` | alembic/versions/2ec8ea5fe9f2_enforce_single_item_batch_per_location_.py:69-140 | an UPDATE or DELETE makes the two protocols differ on some later insert if and only if it refills a location that only the shipped one still binds |
| `LocationBinding.StaleLocationSplits` | alembic/versions/2ec8ea5fe9f2_enforce_single_item_batch_per_location_.py:76-105 | a stocked location bound in one protocol only lets through an insert in one and not in the other |
| `LocationColumns.EnforceExactly` | alembic/versions/2ec8ea5fe9f2_enforce_single_item_batch_per_location_.py:70-109 | the trigger accepts a row if and only if it has a batch and the location is unbound, bound to that item and batch, or of total quantity zero, whatever the row's own quantity; it is then bound to that item and batch and no other location changes |
| `LocationColumns.InsertRowExactly` | alembic/versions/2ec8ea5fe9f2_enforce_single_item_batch_per_location_.py:70-115 | the same for an INSERT of one row with its keys, and the state it leaves |
| `LocationColumns.MixedInsertAborts` | alembic/versions/2ec8ea5fe9f2_enforce_single_item_batch_per_location_.py:88-105 | two rows of different items cannot enter a location in one INSERT if the first leaves it with stock |
| `LocationColumns.ChangeExactly` | alembic/versions/2ec8ea5fe9f2_enforce_single_item_batch_per_location_.py:135-139 | an UPDATE or DELETE is accepted if and only if keys hold afterwards, and the stock rows it leaves |
| `LocationColumns.UnbindsExactly` | alembic/versions/2ec8ea5fe9f2_enforce_single_item_batch_per_location_.py:119-140 | per row, exactly the locations that a written or deleted row was in and whose quantities then add up to zero are unbound; as shipped, none |
| `LocationColumns.RowUnbindKeepsBoundStocked` | alembic/versions/2ec8ea5fe9f2_enforce_single_item_batch_per_location_.py:119-140 | with unbinding per row a bound location always holds stock, as long as inserts bring some |
| `LocationColumns.ShippedKeepsEmptyBound` | alembic/versions/2ec8ea5fe9f2_enforce_single_item_batch_per_location_.py:135-139 | the shipped protocol leaves an emptied location bound |
| `LocationBinding.RunKeepsSafe` | alembic/versions/2ec8ea5fe9f2_enforce_single_item_batch_per_location_.py:69-140 | location safety over runs, with either unbinding: positive stock of a location has one item and batch throughout, those it is bound to, if and only if every accepted UPDATE leaves stock only on rows that match the binding of their location |
| `LocationBinding.CarefulRunKeepsSafe` | alembic/versions/2ec8ea5fe9f2_enforce_single_item_batch_per_location_.py:69-140 | in particular when quantity only grows on rows that match the binding |
| `LocationBinding.StepKeepsSafe` | alembic/versions/2ec8ea5fe9f2_enforce_single_item_batch_per_location_.py:69-140 | exactly which accepted statements keep safety: every INSERT and DELETE, and an UPDATE if and only if each row it leaves with stock matches the binding of its location |
| `LocationBinding.StaleIncreaseMixesItems` | alembic/versions/2ec8ea5fe9f2_enforce_single_item_batch_per_location_.py:111-115 | an UPDATE outside that condition: refilling an old row of a rebound location is accepted and mixes items |
| `LocationBinding.StaleRowsAreReachable` | alembic/versions/2ec8ea5fe9f2_enforce_single_item_batch_per_location_.py:88-105 | the protocol itself leads to that old row |
| `LocationBinding.BackfillSafeExactly` | alembic/versions/2ec8ea5fe9f2_enforce_single_item_batch_per_location_.py:36-66 | the checked backfill starts safe if and only if no positive row lacks a batch |
| `LocationColumns.HealthyExactly` | alembic/versions/2ec8ea5fe9f2_enforce_single_item_batch_per_location_.py:40-50 | the health check passes if and only if any two rows of one location have the same item, and the same batch where both have one |
| `LocationColumns.BackfillBinds` | alembic/versions/2ec8ea5fe9f2_enforce_single_item_batch_per_location_.py:53-64 | an unbound location is bound to the item of its rows and the batch of those that have one; every other keeps its binding |
| `LocationBinding.UnbatchedStockSlipsThrough` | alembic/versions/2ec8ea5fe9f2_enforce_single_item_batch_per_location_.py:43-46 | an input that passes the health check and starts unsafe: positive stock without a batch |
| `LocationTriggers.LocationDb.SumQty` | alembic/versions/2ec8ea5fe9f2_enforce_single_item_batch_per_location_.py:90-92 | the quantity of a location, whatever order its rows are read in |
| `LocationTriggers.LocationDb.EnforceBinding` | alembic/versions/2ec8ea5fe9f2_enforce_single_item_batch_per_location_.py:70-109 | rejects exactly rows without a batch and, in a bound location whose quantities do not add up to zero, rows of another item or batch; otherwise binds the location to the row and leaves every other alone |
| `LocationTriggers.LocationDb.UnbindWhenEmpty` | alembic/versions/2ec8ea5fe9f2_enforce_single_item_batch_per_location_.py:120-133 | one firing of the unbinding trigger |
| `LocationTriggers.LocationDb.UnbindEach` | alembic/versions/2ec8ea5fe9f2_enforce_single_item_batch_per_location_.py:119-140 | FOR EACH ROW variant: its firings together unbind exactly the touched locations of quantity zero |
| `LocationTriggers.LocationDb.Insert` | alembic/versions/2ec8ea5fe9f2_enforce_single_item_batch_per_location_.py:111-115 | a multi-row INSERT: each row sees the rows before it, and one rejection undoes all |
| `LocationTriggers.LocationDb.Change` | alembic/versions/2ec8ea5fe9f2_enforce_single_item_batch_per_location_.py:135-139 | UPDATE or DELETE with either unbinding variant |
| `LocationTriggers.LocationDb.CheckAndBackfill` | alembic/versions/2ec8ea5fe9f2_enforce_single_item_batch_per_location_.py:36-66 | raises if and only if two rows of one location have different items, or different batches; otherwise the bindings of the backfill |
| `LocationTriggers.LocationDb.CheckHealth` | alembic/versions/2ec8ea5fe9f2_enforce_single_item_batch_per_location_.py:40-50 | the loop that raises |
| `LocationTriggers.LocationDb.BackfillBindings` | alembic/versions/2ec8ea5fe9f2_enforce_single_item_batch_per_location_.py:53-64 | the UPDATE of locations that are not yet bound |
| `LotLedger.RebuildProjects` | alembic/versions/3311386fa223_phase4b_add_stocks_lot_rebuild_and_.py:40-51 | after a rebuild every slot, recorded or not, holds the sum of its ledger entries |
| `LotLedger.RebuildIsDetermined` | alembic/versions/3311386fa223_phase4b_add_stocks_lot_rebuild_and_.py:40-51 | the rebuilt rows depend on the ledger alone, not on its order nor on the former table |
| `LotLedger.AppendMovesOneSlot` | alembic/versions/3311386fa223_phase4b_add_stocks_lot_rebuild_and_.py:43-51 | one more entry moves its own slot by its delta and no other |
| `LotLedger.RebuildAfterAppend` | alembic/versions/3311386fa223_phase4b_add_stocks_lot_rebuild_and_.py:43-51 | the same between two rebuilt tables; a slot has a row if and only if its quantity is not zero |
| `LotLedger.AssertionPassesExactly` | alembic/versions/3311386fa223_phase4b_add_stocks_lot_rebuild_and_.py:58-116 | the assertion passes if and only if stock and receipt ledger agree on every slot and the sums fit INTEGER |
| `LotLedger.RebuildThenAssertPasses` | alembic/versions/3311386fa223_phase4b_add_stocks_lot_rebuild_and_.py:32-116 | the assertion accepts every receipt rebuild that went through |
| `LotLedgerColumns.RebuildPerLot` | alembic/versions/3311386fa223_phase4b_add_stocks_lot_rebuild_and_.py:43-51 | on raw columns: no two rebuilt rows share item, warehouse and lot, each holds the sum of the entries with that very item, warehouse and lot, and each such sum other than zero has its row |
| `LotLedgerColumns.AssertionPerLot` | alembic/versions/3311386fa223_phase4b_add_stocks_lot_rebuild_and_.py:58-116 | on raw columns: the assertion passes if and only if for every item, warehouse and lot stock adds up to the receipts and the sum fits INTEGER |
| `LotLedgerDb.LotDb.Rebuild` | alembic/versions/3311386fa223_phase4b_add_stocks_lot_rebuild_and_.py:32-53 | fails if and only if some sum does not fit INTEGER, and then keeps the table; otherwise each row holds the sum of the entries of its own item, warehouse and lot, and each such sum other than zero has a row |
| `LotLedgerDb.LotDb.AssertReconciled` | alembic/versions/3311386fa223_phase4b_add_stocks_lot_rebuild_and_.py:98-114 | the function raises exactly when stock and receipts differ for some item, warehouse and lot, or a sum does not fit |
| `LotLedgerDb.LotDb.MaxLot` | alembic/versions/3311386fa223_phase4b_add_stocks_lot_rebuild_and_.py:46 | the largest lot of a slot, null if all are |
| `LotLedgerDb.LotDb.SumLedger` | alembic/versions/3311386fa223_phase4b_add_stocks_lot_rebuild_and_.py:61-70 | the receipt sums per slot |
| `LotLedgerDb.LotDb.SumStocks` | alembic/versions/3311386fa223_phase4b_add_stocks_lot_rebuild_and_.py:71-79 | the stock sums per slot |
| `MapSums.SumByKey` | alembic/versions/3311386fa223_phase4b_add_stocks_lot_rebuild_and_.py:61-79 | SUM with GROUP BY: one sum for each key in use, whatever order the rows are read in |
| `LotMerge.MergeMapIsDetermined` | alembic/versions/00ab40d84c08_phase_lots_lot_code_key_internal_lot_.py:45-63 | the mapping from duplicate to kept lot is determined by: smallest id of the group, and only the others move |
| `LotMerge.RepointUniqueExactly` | alembic/versions/00ab40d84c08_phase_lots_lot_code_key_internal_lot_.py:67-101 | repointing respects a unique key if and only if no merge group owns two rows that agree on the rest of the key |
| `LotMerge.RepointTargetsStay` | alembic/versions/00ab40d84c08_phase_lots_lot_code_key_internal_lot_.py:67-101 | repointed rows only move onto keys of rows that stay |
| `LotMerge.RepointedReferencesHold` | alembic/versions/5b4ff22a3818_phase_m4_inbound_receipt_lines_allow_.py:57-76 | no repointed row names a removed lot, each that names one names a lot of its own warehouse and item, and draft lines without a lot stay without |
| `LotMerge.SurvivorsAreSingle` | alembic/versions/00ab40d84c08_phase_lots_lot_code_key_internal_lot_.py:115-157 | at most one code-less INTERNAL lot per warehouse and item remains |
| `LotMerge.MergeSucceedsExactly` | alembic/versions/00ab40d84c08_phase_lots_lot_code_key_internal_lot_.py:43-157 | the migration goes through if and only if no group owns two stock rows, two snapshots of a date or two ledger entries of a document line, and supplier codes are unique once normalised |
| `LotMergeExamples.DraftLineWithoutLotPasses` | alembic/versions/5b4ff22a3818_phase_m4_inbound_receipt_lines_allow_.py:57-76 | a database with a draft receipt line without a lot goes through |
| `LotMergeExamples.TwoStockRowsBlockMerge` | alembic/versions/00ab40d84c08_phase_lots_lot_code_key_internal_lot_.py:67-77 | first cause at an input: two duplicates of a lot both own stock |
| `LotMergeExamples.TwoEntriesBlockMerge` | alembic/versions/00ab40d84c08_phase_lots_lot_code_key_internal_lot_.py:79-89 | second cause: both own an entry of one document line |
| `LotMergeExamples.TwoSnapshotsBlockMerge` | alembic/versions/00ab40d84c08_phase_lots_lot_code_key_internal_lot_.py:91-101 | third cause: both own a snapshot of one date |
| `LotMergeExamples.TwoSpellingsBlockMerge` | alembic/versions/1932b2dafbf8_phase3_enforce_inbound_receipt_lines_.py:58-65 | fourth cause: the replaced index told two spellings of a supplier code apart |
| `LotMergeColumns.MergeKeepsSchema` | alembic/versions/00ab40d84c08_phase_lots_lot_code_key_internal_lot_.py:43-157 | on success keys and references hold, exactly the lots with a smaller one of their kind are removed, each row of the four tables is unchanged but for its lot, which changes only from a removed lot to the kept one, and the totals of stock, ledger, snapshots and receipts are unchanged |
| `LotMergeColumns.MergeSucceedsOnColumns` | alembic/versions/00ab40d84c08_phase_lots_lot_code_key_internal_lot_.py:43-157 | exactly which rows stand in the way: two stock rows, two entries of one document line or two snapshots of one date on lots of one kind, or two codes equal up to case and spaces |
| `LotMergeColumns.SchemaOnColumns` | alembic/versions/5b4ff22a3818_phase_m4_inbound_receipt_lines_allow_.py:57-76 | what the schema demands of the five tables before the merge |
| `LotMerge.RepointKeepsReconciled` | alembic/versions/00ab40d84c08_phase_lots_lot_code_key_internal_lot_.py:67-89 | repointing stock and ledger keeps them equal on every slot |
| `LotMerge.MergeKeepsReconciled` | alembic/versions/00ab40d84c08_phase_lots_lot_code_key_internal_lot_.py:43-122 | stock and receipt ledger that agree on every slot before the merge agree on every slot after it |
| `LotMerge.RebuildCommutesWithRepoint` | alembic/versions/3311386fa223_phase4b_add_stocks_lot_rebuild_and_.py:40-51 | rebuilding from the repointed ledger gives, slot by slot, what repointing and summing the rebuilt table gives |
| `UniqueKeys.RowChecksFollowFinalCheck` | alembic/versions/00ab40d84c08_phase_lots_lot_code_key_internal_lot_.py:67-101 | when moved rows only meet rows that stay and the final table is unique, no order of row updates meets a conflict on the way |
| `UniqueKeys.EveryOrderPassesExactly` | alembic/versions/00ab40d84c08_phase_lots_lot_code_key_internal_lot_.py:67-101 | every order of row updates goes through if and only if the final table is unique and moved rows only meet rows that stay |
| `UniqueKeys.UpdateRowByRow` | alembic/versions/00ab40d84c08_phase_lots_lot_code_key_internal_lot_.py:67-101 | a row-by-row checked UPDATE that goes through leaves a unique table; where moved rows only meet rows that stay it fails if and only if the final table is not unique |
| `LotMergeDb.MergeDb.KeptLots` | alembic/versions/00ab40d84c08_phase_lots_lot_code_key_internal_lot_.py:46-52 | MIN(id) per warehouse and item |
| `LotMergeDb.MergeDb.BuildMapping` | alembic/versions/00ab40d84c08_phase_lots_lot_code_key_internal_lot_.py:43-65 | the temporary table holds exactly the mapping |
| `LotMergeDb.MergeDb.UpdateStocks` | alembic/versions/00ab40d84c08_phase_lots_lot_code_key_internal_lot_.py:68-77 | the stock rows repointed and otherwise unchanged, and whether their key survives |
| `LotMergeDb.MergeDb.UpdateLedger` | alembic/versions/00ab40d84c08_phase_lots_lot_code_key_internal_lot_.py:80-89 | the ledger rows repointed and otherwise unchanged, and whether their key survives |
| `LotMergeDb.MergeDb.UpdateSnapshots` | alembic/versions/00ab40d84c08_phase_lots_lot_code_key_internal_lot_.py:92-101 | the snapshots repointed and otherwise unchanged, quantities included, and whether their key survives |
| `LotMergeDb.MergeDb.UpdateReceiptLines` | alembic/versions/00ab40d84c08_phase_lots_lot_code_key_internal_lot_.py:104-113 | the receipt lines repointed one after the other and otherwise unchanged: none is left on a lot that is about to be deleted, lines without a lot stay without |
| `LotMergeDb.MergeDb.DeleteLots` | alembic/versions/00ab40d84c08_phase_lots_lot_code_key_internal_lot_.py:115-122 | the lots deleted, unless a row still points at one |
| `LotMergeDb.MergeDb.RunStatements` | alembic/versions/00ab40d84c08_phase_lots_lot_code_key_internal_lot_.py:43-157 | the statements in sequence up to the first failure |
| `LotMergeDb.MergeDb.Upgrade` | alembic/versions/00ab40d84c08_phase_lots_lot_code_key_internal_lot_.py:43-157 | commits the merge as a whole or changes nothing |
| `BatchCollapse.CollapseConserves` | alembic/versions/16203ca6ea03_datafix_collapse_fake_batch_codes_to_.py:134-173 | the upgrade keeps the summed quantity of every warehouse and item |
| `BatchCollapse.CollapseLeavesNoFake` | alembic/versions/16203ca6ea03_datafix_collapse_fake_batch_codes_to_.py:134-208 | no fake code is left on an item without shelf life, in stock or ledger, and the keys stay unique |
| `BatchCollapse.CollapseTouchesNothingElse` | alembic/versions/16203ca6ea03_datafix_collapse_fake_batch_codes_to_.py:134-208 | rows that are neither fake nor the NULL slot of an affected item stay as they were |
| `BatchCollapseColumns.StockAfterUpgrade` | alembic/versions/16203ca6ea03_datafix_collapse_fake_batch_codes_to_.py:134-173 | every stock row: one with any of the five codes, in any case, on a known item whose has_shelf_life is null or FALSE goes; the slot without a code receives the sum of those of its warehouse and item; every other row is left alone |
| `BatchCollapseColumns.LedgerAfterUpgrade` | alembic/versions/16203ca6ea03_datafix_collapse_fake_batch_codes_to_.py:194-208 | every ledger entry: such a code is erased, and nothing else changes |
| `BatchCollapseColumns.ShelfLifeUntouched` | alembic/versions/16203ca6ea03_datafix_collapse_fake_batch_codes_to_.py:98-100 | items with has_shelf_life TRUE and unknown items keep all their rows and entries, slots without a code included |
| `BatchCollapseColumns.ErasedCodesAreGone` | alembic/versions/16203ca6ea03_datafix_collapse_fake_batch_codes_to_.py:161-208 | each of the five codes, in any case, is gone from both tables for items without shelf life |
| `BatchCollapseExamples.ShelfLifeItemIsLeftAlone` | alembic/versions/16203ca6ea03_datafix_collapse_fake_batch_codes_to_.py:98-100 | an input with has_shelf_life TRUE and stock under NOEXP |
| `BatchCollapseColumns.BackupsAfterUpgrade` | alembic/versions/16203ca6ea03_datafix_collapse_fake_batch_codes_to_.py:91-193 | what the three backup tables hold afterwards; older saved quantities and codes win |
| `BatchCollapseColumns.UpgradeFailsOnColumns` | alembic/versions/16203ca6ea03_datafix_collapse_fake_batch_codes_to_.py:134-208 | the upgrade fails exactly on a pair of entries that collide or a sum that does not fit |
| `BatchCollapseColumns.CollideOnColumns` | alembic/versions/16203ca6ea03_datafix_collapse_fake_batch_codes_to_.py:194-208 | which pairs of entries collide, on their columns |
| `BatchCollapseColumns.AfterDowngrade` | alembic/versions/16203ca6ea03_datafix_collapse_fake_batch_codes_to_.py:211-251 | what a downgrade writes from any state: saved codes, saved quantities, saved rows, and nothing else |
| `BatchCollapseColumns.DowngradeFailsOnColumns` | alembic/versions/16203ca6ea03_datafix_collapse_fake_batch_codes_to_.py:211-251 | a downgrade fails exactly when two backup batches name one row or two restored entries share a key |
| `BatchCollapse.UpgradeSucceedsExactly` | alembic/versions/16203ca6ea03_datafix_collapse_fake_batch_codes_to_.py:134-208 | the upgrade goes through if and only if the sums fit INTEGER and no two ledger entries collide |
| `BatchCollapse.LedgerCollapsesExactly` | alembic/versions/16203ca6ea03_datafix_collapse_fake_batch_codes_to_.py:194-208 | erasing the codes breaks the ledger key if and only if two entries of one document line differ only in a code that is erased: both fake, or one fake and the other none |
| `BatchCollapseExamples.TwoFakesOfOneLineClash` | alembic/versions/3a5761b8cbd5_stocks_ledger_allow_null_batch_code.py:101-109 | an input where it does |
| `BatchCollapse.FirstUpgrade` | alembic/versions/16203ca6ea03_datafix_collapse_fake_batch_codes_to_.py:91-192 | from empty backup tables the backups are exactly the fake rows, NULL quantities and ledger codes it saw |
| `BatchCollapse.DowngradeGoesThrough` | alembic/versions/16203ca6ea03_datafix_collapse_fake_batch_codes_to_.py:211-251 | a downgrade right after a first upgrade never aborts |
| `BatchCollapse.LedgerRoundTrip` | alembic/versions/16203ca6ea03_datafix_collapse_fake_batch_codes_to_.py:178-224 | the ledger comes back verbatim |
| `BatchCollapse.RowAfterRoundTrip` | alembic/versions/16203ca6ea03_datafix_collapse_fake_batch_codes_to_.py:91-251 | what upgrade and downgrade together do to each stock row |
| `BatchCollapse.RoundTripExactly` | alembic/versions/16203ca6ea03_datafix_collapse_fake_batch_codes_to_.py:91-251 | all stock rows come back verbatim, codes that differ in case included, and only empty NULL slots are added, if and only if no affected item keeps stock under the literal sentinel (or what was added there is zero) |
| `BatchCollapseExamples.SentinelStockIsNotRestored` | alembic/versions/3a5761b8cbd5_stocks_ledger_allow_null_batch_code.py:40-56 | an input where stock is not restored: no constraint keeps the literal sentinel out of the batch code |
| `BatchCollapse.RepeatsExactly` | alembic/versions/16203ca6ea03_datafix_collapse_fake_batch_codes_to_.py:91-251 | when the second upgrade goes through, the second downgrade does if and only if there was no fake stock: otherwise the backup names a key twice |
| `BatchCollapse.NoFakesRepeat` | alembic/versions/16203ca6ea03_datafix_collapse_fake_batch_codes_to_.py:91-251 | without fake stock the second upgrade and downgrade both go through and restore stock and ledger |
| `BatchCollapse.RestoreMeetsNoConflict` | alembic/versions/16203ca6ea03_datafix_collapse_fake_batch_codes_to_.py:214-224 | after a first upgrade the downgrade can update the ledger rows in any order |
| `BatchCollapseDb.CollapseDb.BackUpStocks` | alembic/versions/16203ca6ea03_datafix_collapse_fake_batch_codes_to_.py:91-129 | one more batch of saved rows; an older saved NULL quantity wins |
| `BatchCollapseDb.CollapseDb.FoldIntoNullSlots` | alembic/versions/16203ca6ea03_datafix_collapse_fake_batch_codes_to_.py:134-159 | the aggregated upsert, failing if and only if a sum does not fit INTEGER |
| `BatchCollapseDb.CollapseDb.DeleteFakes` | alembic/versions/16203ca6ea03_datafix_collapse_fake_batch_codes_to_.py:161-173 | exactly the fake rows are deleted |
| `BatchCollapseDb.FoldThenDelete` | alembic/versions/16203ca6ea03_datafix_collapse_fake_batch_codes_to_.py:134-173 | upserting the sums and then deleting the fake rows is the collapse: the upserted rows survive the delete |
| `BatchCollapseDb.CollapseDb.BackUpCodes` | alembic/versions/16203ca6ea03_datafix_collapse_fake_batch_codes_to_.py:178-193 | the saved ledger codes; an older saved code wins |
| `BatchCollapseDb.CollapseDb.CollapseLedger` | alembic/versions/16203ca6ea03_datafix_collapse_fake_batch_codes_to_.py:178-208 | the codes erased, failing if and only if that breaks the ledger key |
| `BatchCollapseDb.CollapseDb.Upgrade` | alembic/versions/16203ca6ea03_datafix_collapse_fake_batch_codes_to_.py:91-208 | commits the upgrade as a whole or changes nothing; items with shelf life keep their stock and codes, and exactly the five codes on other known items go |
| `BatchCollapseDb.CollapseDb.RestoreLedger` | alembic/versions/16203ca6ea03_datafix_collapse_fake_batch_codes_to_.py:214-224 | the saved codes written back, against the unique key row by row |
| `BatchCollapseDb.CollapseDb.RestoreNulls` | alembic/versions/16203ca6ea03_datafix_collapse_fake_batch_codes_to_.py:226-238 | row by row: rows with a code do not change, and each NULL slot with a backup holds its former quantity again |
| `BatchCollapseDb.CollapseDb.RestoreFakes` | alembic/versions/16203ca6ea03_datafix_collapse_fake_batch_codes_to_.py:240-251 | the saved rows upserted, failing if and only if the backup names a key twice |
| `BatchCollapseDb.CollapseDb.Downgrade` | alembic/versions/16203ca6ea03_datafix_collapse_fake_batch_codes_to_.py:211-251 | commits the downgrade as a whole or changes nothing; where no entry waits for another to move, as after a first upgrade, it fails only if the final ledger key or the backup clashes |
| `SkuCutover.UpgradeSucceedsExactly` | alembic/versions/20260430113408_sku_coding_segments_use_attribute_options.py:24-169 | the guard and the checks let the upgrade through if and only if every TERM segment finds a definition under its template's kind and its group's code |
| `SkuCutover.MatchingKindsFindDefinitions` | alembic/versions/20260430113408_sku_coding_segments_use_attribute_options.py:125-158 | if every TERM segment's group is of its template's kind the guard never raises |
| `SkuCutoverExamples.CommonGroupBlocksUpgrade` | alembic/versions/20260429114500_pms_sku_coding_tables_and_pages.py:176-225 | an input that the guard stops: groups may be COMMON, templates may not |
| `SkuCutover.UpgradeKeepsMeaning` | alembic/versions/20260430113408_sku_coding_segments_use_attribute_options.py:24-172 | a TERM segment is bound to the definition with its group's kind and code if and only if the kinds match, and that definition offers the former term codes and its own earlier options, nothing else |
| `SkuCutover.OptionsCoverTerms` | alembic/versions/20260430113408_sku_coding_segments_use_attribute_options.py:79-104 | the options of a promoted definition are the union of its group's terms and its earlier options |
| `SkuCutoverColumns.UpgradeFailsOnColumns` | alembic/versions/20260430113408_sku_coding_segments_use_attribute_options.py:125-158 | the upgrade fails exactly on a TERM segment without a group, or for whose template's kind and group's code there is neither a group nor an option definition for SKU segments |
| `SkuCutoverColumns.DefinitionsOnColumns` | alembic/versions/20260430113408_sku_coding_segments_use_attribute_options.py:24-77 | every definition after the upgrade, with the columns an existing one keeps |
| `SkuCutoverColumns.NamesOnColumns` | alembic/versions/20260430113408_sku_coding_segments_use_attribute_options.py:44-55 | the nine fixed names |
| `SkuCutoverColumns.OptionsOnColumns` | alembic/versions/20260430113408_sku_coding_segments_use_attribute_options.py:79-104 | every option after the upgrade: earlier ones as they were, new ones with the columns of their term |
| `SkuCutoverColumns.SegmentsOnColumns` | alembic/versions/20260430113408_sku_coding_segments_use_attribute_options.py:125-172 | every segment after the upgrade |
| `SkuCutoverColumns.GroupsAfterDowngrade` | alembic/versions/20260430113408_sku_coding_segments_use_attribute_options.py:458-514 | every group and term after the downgrade |
| `SkuCutoverColumns.SegmentsAfterDowngrade` | alembic/versions/20260430113408_sku_coding_segments_use_attribute_options.py:529-553 | every segment after the downgrade |
| `SkuCutoverColumns.DowngradeFailsOnColumns` | alembic/versions/20260430113408_sku_coding_segments_use_attribute_options.py:408-549 | the downgrade after an upgrade fails exactly on a recreated group with a code over 32 or a name over 64 characters, a term code over 32, or two options of one definition that share a name |
| `SkuCutover.DowngradeSucceedsExactly` | alembic/versions/20260430113408_sku_coding_segments_use_attribute_options.py:408-549 | after an upgrade the downgrade fails only on codes, names or repeated names that the older tables cannot hold |
| `SkuCutoverExamples.SharedNameBlocksDowngrade` | alembic/versions/d8f6a2b41c9e_pms_master_data_governance.py:331-353 | an input the downgrade cannot take: two options of one definition share a name |
| `SkuCutoverExamples.LongCodeBlocksDowngrade` | alembic/versions/d8f6a2b41c9e_pms_master_data_governance.py:295-295 | another: a definition code of 33 characters, where definitions allow 64 and groups 32 |
| `SkuCutover.SegmentRoundTrip` | alembic/versions/20260430113408_sku_coding_segments_use_attribute_options.py:529-553 | every TERM segment is a TERM segment again, on the group of its template's kind and its former code |
| `SkuCutover.SegmentsRoundTripExactly` | alembic/versions/20260430113408_sku_coding_segments_use_attribute_options.py:125-553 | the segments come back verbatim if and only if every TERM segment's group had its template's kind and no other segment named a group |
| `SkuCutover.PromotedGroupReturns` | alembic/versions/20260430113408_sku_coding_segments_use_attribute_options.py:458-485 | which groups come back, and with which columns |
| `SkuCutover.PromotedTermsReturn` | alembic/versions/20260430113408_sku_coding_segments_use_attribute_options.py:487-514 | a group's terms come back verbatim if and only if its definition had no other option, or none that differed |
| `SkuCutover.GroupsRoundTrip` | alembic/versions/20260430113408_sku_coding_segments_use_attribute_options.py:24-514 | both for the whole round trip: COMMON groups are lost, new ones return but for their remark and nine names |
| `SkuCutoverDb.SkuDb.PromoteGroups` | alembic/versions/20260430113408_sku_coding_segments_use_attribute_options.py:24-77 | the definitions after INSERT .. ON CONFLICT DO UPDATE, in any order of rows |
| `SkuCutoverDb.SkuDb.PromoteTerms` | alembic/versions/20260430113408_sku_coding_segments_use_attribute_options.py:79-104 | the options after INSERT .. ON CONFLICT DO NOTHING |
| `SkuCutoverDb.SkuDb.RebindSegments` | alembic/versions/20260430113408_sku_coding_segments_use_attribute_options.py:125-141 | the segments after the rebinding UPDATE |
| `SkuCutoverDb.SkuDb.Upgrade` | alembic/versions/20260430113408_sku_coding_segments_use_attribute_options.py:24-172 | commits the cutover as a whole or changes nothing |
| `SkuCutoverDb.SkuDb.RecreateGroups` | alembic/versions/20260430113408_sku_coding_segments_use_attribute_options.py:458-485 | row by row into the empty table: afterwards it holds exactly the FOOD and SUPPLY definitions that a segment may be bound to |
| `SkuCutoverDb.SkuDb.RecreateTerms` | alembic/versions/20260430113408_sku_coding_segments_use_attribute_options.py:487-514 | row by row: each recreated group has the codes of its definition's options as terms, and no term is without its group |
| `SkuCutoverDb.SkuDb.UnbindSegments` | alembic/versions/20260430113408_sku_coding_segments_use_attribute_options.py:529-543 | the segments after the inverse UPDATE |
| `SkuCutoverDb.SkuDb.Downgrade` | alembic/versions/20260430113408_sku_coding_segments_use_attribute_options.py:408-553 | commits the downgrade as a whole or changes nothing |
| `LotDates.CandidateIsTheOnlyDate` | alembic/versions/24ddc21b01e6_backfill_lots_production_date_from_.py:26-61 | the MIN and COUNT DISTINCT case analysis yields a date if and only if it is the only one in the union of the two sources |
| `LotDates.CandidateOnRows` | alembic/versions/24ddc21b01e6_backfill_lots_production_date_from_.py:26-61 | the candidate is the date that the RECEIPT entries and receipt lines of the lot name, if they name exactly one; other entries do not count |
| `LotDates.LotAfterUpgrade` | alembic/versions/24ddc21b01e6_backfill_lots_production_date_from_.py:59-66 | every lot after the upgrade |
| `LotDates.LotAfterDowngrade` | alembic/versions/24ddc21b01e6_backfill_lots_production_date_from_.py:115-123 | every lot after the downgrade |
| `LotDates.RoundTripExactly` | alembic/versions/24ddc21b01e6_backfill_lots_production_date_from_.py:26-124 | downgrade after upgrade is the identity if and only if no REQUIRED lot already carried its own candidate date |
| `LotDates.OwnDateIsLost` | alembic/versions/24ddc21b01e6_backfill_lots_production_date_from_.py:118-123 | an input where a date that the upgrade did not write is erased |
| `LotDates.UpgradeIsCompleteAndIdempotent` | alembic/versions/24ddc21b01e6_backfill_lots_production_date_from_.py:62-66 | afterwards no REQUIRED lot lacks a date its sources agree on, only such lots changed, and a second upgrade changes nothing |
| `LotDates.AggregateDates` | alembic/versions/24ddc21b01e6_backfill_lots_production_date_from_.py:29-30 | MIN and COUNT(DISTINCT) of a group, no row for an empty one |
| `LotDates.LotsDb.Resolve` | alembic/versions/24ddc21b01e6_backfill_lots_production_date_from_.py:45-61 | the candidate of a lot as its two aggregates give it |
| `LotDates.LotsDb.RunUpgrade` | alembic/versions/24ddc21b01e6_backfill_lots_production_date_from_.py:62-66 | the upgrade over the whole table, in any order of rows |
| `LotDates.LotsDb.RunDowngrade` | alembic/versions/24ddc21b01e6_backfill_lots_production_date_from_.py:118-123 | the downgrade over the whole table |
| `PickTasks.HeadHistory` | alembic/versions/20251101_pick_tasks_tables.py:130-160 | over every run in which nothing else writes DONE, a head is DONE if and only if at some earlier firing all lines of its task were done or cancelled |
| `PickTasks.HeadStep` | alembic/versions/20251101_pick_tasks_tables.py:136-142 | one statement makes a head DONE if and only if it closes the task or the head was DONE |
| `PickColumns.HeadsOnColumns` | alembic/versions/20251101_pick_tasks_tables.py:130-160 | every head after a statement: inserting a line, or updating one with status or a quantity in the SET list, closes its task if all lines are then DONE or CANCELLED; nothing else does |
| `PickColumns.CancellingClosesHead` | alembic/versions/20251101_pick_tasks_tables.py:151-160 | cancelling the last open line by hand closes its head |
| `PickColumns.LinesOnColumns` | alembic/versions/20251101_pick_tasks_tables.py:103-127 | every line after a statement, column by column |
| `PickColumns.AcceptedOnColumns` | alembic/versions/20251101_pick_tasks_tables.py:43-58 | a statement is accepted if and only if no id is used twice and every line left is of an existing task, with a positive quantity and between none and all of it picked |
| `PickTasks.LineStatusExplained` | alembic/versions/20251101_pick_tasks_tables.py:103-127 | every line's status is the classification of its current quantities, or the status set by hand by the last statement that touched it |
| `PickTasks.LineStep` | alembic/versions/20251101_pick_tasks_tables.py:118-127 | one statement classifies, sets by hand, or leaves a line alone |
| `PickTasks.StepKeepsDoneClosed` | alembic/versions/20251101_pick_tasks_tables.py:102-160 | an accepted statement keeps every DONE head without open lines if and only if no line it writes is an open line of a DONE head |
| `PickTasks.RunKeepsDoneClosed` | alembic/versions/20251101_pick_tasks_tables.py:102-160 | the same throughout a run |
| `PickTasks.ReopenedLineLeavesHeadDone` | alembic/versions/20251101_pick_tasks_tables.py:140-146 | an UPDATE outside that condition: a line is picked back to zero and its head stays DONE |
| `PickTasks.BeforeRow` | alembic/versions/20251101_pick_tasks_tables.py:103-115 | the classification: OPEN at zero, DONE at the required quantity, PARTIAL strictly between |
| `PickTasks.WriteRow` | alembic/versions/20251101_pick_tasks_tables.py:118-127 | the BEFORE trigger runs exactly when a quantity is in the SET list |
| `PickTasks.PickDb.InsertLineRows` | alembic/versions/20251101_pick_tasks_tables.py:118-127 | inserted lines are classified, whatever status they bring |
| `PickTasks.PickDb.UpdateLineRows` | alembic/versions/20251101_pick_tasks_tables.py:118-127 | the lines after an UPDATE of all its rows |
| `PickTasks.PickDb.AggregateStatus` | alembic/versions/20251101_pick_tasks_tables.py:130-148 | closes the head if and only if no line of the task is left open |
| `PickTasks.PickDb.FireAggregate` | alembic/versions/20251101_pick_tasks_tables.py:151-160 | all firings of a statement together, in any order |
| `PickTasks.PickDb.Execute` | alembic/versions/20251101_pick_tasks_tables.py:102-160 | a statement on heads or lines with its triggers |
| `SurchargeConfig.TriggersDecideExclusivity` | alembic/versions/04aa7e1aa68b_enforce_surcharge_config_invariants.py:24-115 | from an exclusive state the two triggers, looking at touched rows only, accept a statement if and only if the whole result is exclusive |
| `SurchargeConfig.TouchedRowsSuffice` | alembic/versions/04aa7e1aa68b_enforce_surcharge_config_invariants.py:24-115 | an accepted statement keeps: cities mode has amount 0, province mode has no city, every city's parent is in cities mode |
| `SurchargeConfig.RunKeepsExclusive` | alembic/versions/04aa7e1aa68b_enforce_surcharge_config_invariants.py:24-115 | the same over every run, mode changes, moved cities and cascading deletes included |
| `SurchargeConfig.ConfigPassesMeans` | alembic/versions/04aa7e1aa68b_enforce_surcharge_config_invariants.py:34-51 | what the counting check of the config trigger amounts to |
| `SurchargeConfig.AcceptedOnColumns` | alembic/versions/04aa7e1aa68b_enforce_surcharge_config_invariants.py:24-115 | from an exclusive state a statement is accepted if and only if no id is used twice and no row it leaves breaks a rule |
| `SurchargeConfig.RowsOnColumns` | alembic/versions/04aa7e1aa68b_enforce_surcharge_config_invariants.py:59-115 | the rows a statement leaves; deleting a config takes its cities along |
| `SurchargeConfig.SurchargeDb.FireConfigRows` | alembic/versions/04aa7e1aa68b_enforce_surcharge_config_invariants.py:59-67 | the config trigger over the rows of a statement |
| `SurchargeConfig.SurchargeDb.FireCityRows` | alembic/versions/04aa7e1aa68b_enforce_surcharge_config_invariants.py:107-115 | the city trigger over the rows of a statement |
| `SurchargeConfig.SurchargeDb.Execute` | alembic/versions/04aa7e1aa68b_enforce_surcharge_config_invariants.py:24-115 | a statement with its triggers commits as a whole or changes nothing |
| `PurchaseOrders.AgreesExactly` | alembic/versions/2bb34905ead3_datafix_recalc_po_status_by_base_units.py:50-110 | after the passes a head agrees with its lines and its closing time, if and only if the order is not one of the two ambivalent kinds |
| `PurchaseOrders.NegativeReceiptDisagrees` | alembic/versions/ec0eafe4b6d5_purchase_order_phase2.py:81-87 | the first ambivalent kind at an input: quantities are plain integers, so a receipt may be negative |
| `PurchaseOrders.EmptyOrderDisagrees` | alembic/versions/ec0eafe4b6d5_purchase_order_phase2.py:81-87 | the second: an order of quantity 0 is CREATED and closed |
| `PurchaseOrders.EmptyLineDisagrees` | alembic/versions/ec0eafe4b6d5_purchase_order_phase2.py:81-87 | the second beside a received line: its line is CREATED, its head RECEIVED |
| `PurchaseOrders.ValuesAgreeExactly` | alembic/versions/2bb34905ead3_datafix_recalc_po_status_by_base_units.py:66-95 | the same on status values: the two BOOL_ANDs against the line cases |
| `PurchaseOrders.OrderedInBaseUnits` | alembic/versions/2bb34905ead3_datafix_recalc_po_status_by_base_units.py:56-58 | the ordered quantity in base units: times units_per_case, or once where that is null or 0 |
| `PurchaseOrders.CasesAreNotUnits` | alembic/versions/2bb34905ead3_datafix_recalc_po_status_by_base_units.py:54-60 | ten cases of twelve with ten units received are PARTIAL |
| `PurchaseOrders.LinesOnColumns` | alembic/versions/2bb34905ead3_datafix_recalc_po_status_by_base_units.py:50-63 | every line after the passes |
| `PurchaseOrders.HeadsOnColumns` | alembic/versions/2bb34905ead3_datafix_recalc_po_status_by_base_units.py:66-110 | every head after the passes, with its closing time |
| `PurchaseOrders.OrdinaryOrdersAgree` | alembic/versions/2bb34905ead3_datafix_recalc_po_status_by_base_units.py:50-110 | positive orders and non-negative receipts always agree |
| `PurchaseOrders.HeadsIgnoreLineStatus` | alembic/versions/2bb34905ead3_datafix_recalc_po_status_by_base_units.py:66-110 | the head passes give the same result before and after the line pass |
| `PurchaseOrders.UpgradeIsIdempotent` | alembic/versions/2bb34905ead3_datafix_recalc_po_status_by_base_units.py:50-110 | running the three passes again, at any later time, changes nothing |
| `PurchaseOrders.PurchaseDb.RecalculateLines` | alembic/versions/2bb34905ead3_datafix_recalc_po_status_by_base_units.py:50-63 | the first pass |
| `PurchaseOrders.PurchaseDb.RecalculateHeads` | alembic/versions/2bb34905ead3_datafix_recalc_po_status_by_base_units.py:66-95 | the second pass, over heads with lines |
| `PurchaseOrders.PurchaseDb.ResetEmptyOrders` | alembic/versions/2bb34905ead3_datafix_recalc_po_status_by_base_units.py:98-110 | the third pass, which completes the result for heads without lines |
| `PurchaseOrders.PurchaseDb.Recalculate` | alembic/versions/2bb34905ead3_datafix_recalc_po_status_by_base_units.py:50-110 | the three passes in sequence, failing if and only if an ordered quantity does not fit INTEGER |
| `FulfillmentStages.UpdatesCommute` | alembic/versions/2783f7ab0896_feat_outbound_replace_fulfillment_.py:36-59 | the two updates give the same table in either order |
| `FulfillmentStages.UpgradeSucceedsExactly` | alembic/versions/2783f7ab0896_feat_outbound_replace_fulfillment_.py:61-73 | exactly which tables the two new checks accept; with freshly added columns, all |
| `FulfillmentStages.StatusRoundTripExactly` | alembic/versions/2783f7ab0896_feat_outbound_replace_fulfillment_.py:36-104 | every status comes back if and only if every row in a ship stage has an `updated_at`; other rows are untouched |
| `FulfillmentStages.RowAfterUpgrade` | alembic/versions/2783f7ab0896_feat_outbound_replace_fulfillment_.py:36-59 | every row after the upgrade, with the times it shows |
| `FulfillmentStages.RowAfterDowngrade` | alembic/versions/2783f7ab0896_feat_outbound_replace_fulfillment_.py:81-104 | every row after the downgrade |
| `FulfillmentStages.FulfillmentDb.MoveCommitted` | alembic/versions/2783f7ab0896_feat_outbound_replace_fulfillment_.py:36-46 | the first update |
| `FulfillmentStages.FulfillmentDb.MoveShipped` | alembic/versions/2783f7ab0896_feat_outbound_replace_fulfillment_.py:48-59 | the second update, whose COALESCEs read the old row |
| `FulfillmentStages.FulfillmentDb.RunUpgrade` | alembic/versions/2783f7ab0896_feat_outbound_replace_fulfillment_.py:36-73 | the upgrade with its updates in either order |
| `FulfillmentStages.FulfillmentDb.MarkShipped` | alembic/versions/2783f7ab0896_feat_outbound_replace_fulfillment_.py:81-90 | the first inverse update, row by row: SHIPPED are exactly the rows with a shipping time and those that were |
| `FulfillmentStages.FulfillmentDb.MarkCommitted` | alembic/versions/2783f7ab0896_feat_outbound_replace_fulfillment_.py:91-101 | the second, row by row: rows the first one marked are left alone, rows with only a commit time are SHIP_COMMITTED |
| `FulfillmentStages.FulfillmentDb.RunDowngrade` | alembic/versions/2783f7ab0896_feat_outbound_replace_fulfillment_.py:81-104 | the downgrade |

Facts of the schema that the theorems rely on: record foreign keys and unique keys
(app/shipping_assist/records/models/shipping_record.py:56-67, 128-146), the generated lot key
(alembic/versions/c5092513a21b_phase4b_create_stocks_lot_table.py:38-43), the keys and references on lots
(74d50824066e, b1bed2d7a142, 7dbddf699adc, fe9a13506faf, 9e7f145c0bfd in alembic/versions), with a lot required of receipt
lines only once they are confirmed (alembic/versions/5b4ff22a3818_phase_m4_inbound_receipt_lines_allow_.py:57-76), the batch key with its sentinel
(alembic/versions/3a5761b8cbd5_stocks_ledger_allow_null_batch_code.py:47-109), and the surcharge tables
(alembic/versions/70f2fe66a679_add_shipping_provider_surcharge_configs.py).

## Left out

- Services, routers, permissions and page registries of the application, and pure DDL.
- Concurrency: statements run one after the other. Row ids never change.
- Wall-clock columns (`calculated_at`, `updated_at`, `backed_at`), except that `now` is a parameter where it is stored as data.
- Surrogate ids that a rewrite draws from a sequence: those of cost lines are not modelled, those of rebuilt stock rows are left open, and SKU groups, definitions, terms and options are named by their unique keys.
- Statements that change several source tables at once (writable CTEs), and INSERT .. ON CONFLICT on `stocks`.
- Unique conflicts that only exist while one multi-row UPDATE runs, in the finance, location and surcharge models: their constraints are checked on the table after the statement.
- Text functions on non-ASCII letters, and the session time zone: a shipped date is the UTC date.
- Overflow of 64-bit sums. Casts and columns of type INTEGER are checked.
- The first form of the refresh function, with fewer columns, under its former column names: the later form is modelled.
- Later per-lot reconcile views, and the `snapshots` table and other tables that refer to lots.
- SKU term aliases and the remarks of single terms, which the cutover drops for good, and the page rows it rewrites.
- Timestamp fields and reservations of pick tasks, and the other columns of the rewritten tables.
- BatchCollapseDb.CollapseDb.Downgrade: in states that no first upgrade leaves, where one entry may have to wait for another to move, whether the ledger UPDATE goes through depends on the row order, which is left open; only that what is committed is right is then promised.
- LocationTriggers.LocationDb.CheckAndBackfill: which mixed location the raised message names is not modelled.
