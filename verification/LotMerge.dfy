/** The merge of duplicate INTERNAL lots: every code-less INTERNAL lot of a (warehouse, item) is folded into
    the one with the smallest id, and four tables are repointed before the others are deleted. */
module LotMerge {
  import opened Sql
  import opened MapSums
  import opened UniqueKeys
  import opened LotLedger

  datatype LotSource = SUPPLIER | INTERNAL
  datatype Lot = Lot(warehouse: Id, item: Id, source: LotSource, code: Option<string>)
  datatype Snapshot = Snapshot(date: int, warehouse: Id, item: Id, lot: Option<Id>, qty: int)

  /** `confirmed` is receipt_status_snapshot = 'CONFIRMED'; a draft line may still lack its lot. */
  datatype ReceiptLine = ReceiptLine(warehouse: Id, item: Id, lot: Option<Id>, confirmed: bool, qty: int)

  type Lots = map<Id, Lot>
  datatype Tables = Tables(lots: Lots, stocks: Stocks, ledger: Ledger,
                           snapshots: map<Id, Snapshot>, receiptLines: map<Id, ReceiptLine>)

  // ---------------------------------------------------------------- the mapping

  predicate Mergeable(lots: Lots, id: Id) {
    id in lots && lots[id].source == INTERNAL && lots[id].code == None
  }

  predicate SameGroup(lots: Lots, a: Id, b: Id) {
    Mergeable(lots, a) && Mergeable(lots, b) &&
    lots[a].warehouse == lots[b].warehouse && lots[a].item == lots[b].item
  }

  ghost predicate IsKept(lots: Lots, id: Id, keep: Id) {
    SameGroup(lots, id, keep) && forall other :: SameGroup(lots, id, other) ==> keep <= other
  }

  lemma {:induction false} SmallestOfGroup(lots: Lots, id: Id, bound: Id) returns (keep: Id)
    requires Mergeable(lots, id) && SameGroup(lots, id, bound)
    ensures IsKept(lots, id, keep)
    decreases bound
  {
    if other: Id :| SameGroup(lots, id, other) && other < bound {
      keep := SmallestOfGroup(lots, id, other);
    } else {
      keep := bound;
    }
  }

  /** MIN(id) of the group of a lot. */
  ghost function KeepId(lots: Lots, id: Id): (keep: Id)
    requires Mergeable(lots, id)
    ensures IsKept(lots, id, keep)
  {
    assert exists keep :: IsKept(lots, id, keep) by {
      var keep := SmallestOfGroup(lots, id, id);
    }
    var keep :| IsKept(lots, id, keep); keep
  }

  /** tmp_internal_lot_merge: old_id to keep_id. */
  ghost predicate IsMergeMap(lots: Lots, merged: map<Id, Id>) {
    && (forall id :: id in merged <==> Mergeable(lots, id) && !IsKept(lots, id, id))
    && (forall id :: id in merged ==> IsKept(lots, id, merged[id]))
  }

  ghost function MergeMap(lots: Lots): map<Id, Id> {
    map id | id in lots && Mergeable(lots, id) && KeepId(lots, id) != id :: KeepId(lots, id)
  }

  lemma MergeMapIsDetermined(lots: Lots, merged: map<Id, Id>)
    requires IsMergeMap(lots, merged)
    ensures merged == MergeMap(lots)
  {
  }

  /** One row's SET lot_id = m.keep_id, when it joins the mapping on lot, warehouse and item. */
  function Repoint(lots: Lots, merged: map<Id, Id>, warehouse: Id, item: Id, lot: Option<Id>): Option<Id> {
    if lot.Some? && lot.value in merged && lot.value in lots &&
       lots[lot.value].warehouse == warehouse && lots[lot.value].item == item
    then Some(merged[lot.value]) else lot
  }

  ghost function RepointStocks(lots: Lots, stocks: Stocks): Stocks {
    map s | s in stocks ::
      stocks[s].(lot := Repoint(lots, MergeMap(lots), stocks[s].warehouse, stocks[s].item, stocks[s].lot))
  }

  ghost function RepointLedger(lots: Lots, ledger: Ledger): Ledger {
    map e | e in ledger ::
      ledger[e].(lot := Repoint(lots, MergeMap(lots), ledger[e].warehouse, ledger[e].item, ledger[e].lot))
  }

  ghost function RepointSnapshots(lots: Lots, t: map<Id, Snapshot>): map<Id, Snapshot> {
    map s | s in t :: t[s].(lot := Repoint(lots, MergeMap(lots), t[s].warehouse, t[s].item, t[s].lot))
  }

  ghost function RepointReceiptLines(lots: Lots, t: map<Id, ReceiptLine>): map<Id, ReceiptLine> {
    map s | s in t :: t[s].(lot := Repoint(lots, MergeMap(lots), t[s].warehouse, t[s].item, t[s].lot))
  }

  // ---------------------------------------------------------------- constraints

  /** What a row contributes to a unique key and to the composite foreign key; `rest` is the part of the key
      besides warehouse, item and lot. */
  datatype Pointer<X> = Pointer(warehouse: Id, item: Id, lot: Option<Id>, rest: X)

  function StockPointers(t: Stocks): map<Id, Pointer<()>> {
    map s | s in t :: Pointer(t[s].warehouse, t[s].item, t[s].lot, ())
  }

  function LedgerPointers(t: Ledger): map<Id, Pointer<(string, string, int)>> {
    map e | e in t :: Pointer(t[e].warehouse, t[e].item, t[e].lot, (t[e].reason, t[e].ref, t[e].refLine))
  }

  function SnapshotPointers(t: map<Id, Snapshot>): map<Id, Pointer<int>> {
    map s | s in t :: Pointer(t[s].warehouse, t[s].item, t[s].lot, t[s].date)
  }

  /** inbound_receipt_lines has no unique key with the lot in it: its own id stands for the rest. */
  function ReceiptLinePointers(t: map<Id, ReceiptLine>): map<Id, Pointer<Id>> {
    map s | s in t :: Pointer(t[s].warehouse, t[s].item, t[s].lot, s)
  }

  ghost function RepointAll<X>(lots: Lots, ps: map<Id, Pointer<X>>): map<Id, Pointer<X>> {
    map r | r in ps :: ps[r].(lot := Repoint(lots, MergeMap(lots), ps[r].warehouse, ps[r].item, ps[r].lot))
  }

  /** (lot_id, warehouse_id, item_id) references lots; a row with a null lot_id satisfies it. */
  ghost predicate ReferencesHold<X>(lots: Lots, ps: map<Id, Pointer<X>>) {
    forall r :: r in ps && ps[r].lot.Some? ==>
      && ps[r].lot.value in lots
      && lots[ps[r].lot.value].warehouse == ps[r].warehouse && lots[ps[r].lot.value].item == ps[r].item
  }

  /** The same with lot_id NOT NULL. */
  ghost predicate PointersHold<X>(lots: Lots, ps: map<Id, Pointer<X>>) {
    ReferencesHold(lots, ps) && forall r :: r in ps ==> ps[r].lot.Some?
  }

  /** ck_receipt_lines_lot_required_on_confirmed */
  ghost predicate ConfirmedHaveLots(receiptLines: map<Id, ReceiptLine>) {
    forall r :: r in receiptLines && receiptLines[r].confirmed ==> receiptLines[r].lot.Some?
  }

  /** Three tables demand a lot; inbound_receipt_lines only demands it of confirmed lines. */
  ghost predicate AllPointersHold(t: Tables) {
    && PointersHold(t.lots, StockPointers(t.stocks)) && PointersHold(t.lots, LedgerPointers(t.ledger))
    && PointersHold(t.lots, SnapshotPointers(t.snapshots))
    && ReferencesHold(t.lots, ReceiptLinePointers(t.receiptLines)) && ConfirmedHaveLots(t.receiptLines)
  }

  /** The schema just before the merge. */
  ghost predicate SchemaHolds(t: Tables) {
    && AllPointersHold(t)
    && Unique(StockPointers(t.stocks)) && Unique(LedgerPointers(t.ledger)) && Unique(SnapshotPointers(t.snapshots))
  }

  /** Row deletions are RESTRICTed while any row still points at the lot. */
  ghost predicate Unreferenced<X>(gone: set<Id>, ps: map<Id, Pointer<X>>) {
    forall r :: r in ps && ps[r].lot.Some? ==> ps[r].lot.value !in gone
  }

  /** uq_lots_wh_item_lot_code_key: coded lots are unique on upper(btrim(lot_code)). */
  ghost predicate CodeKeysUnique(lots: Lots) {
    forall a, b ::
      (a in lots && b in lots && a != b && lots[a].code.Some? && lots[b].code.Some? &&
       lots[a].warehouse == lots[b].warehouse && lots[a].item == lots[b].item) ==>
      Upper(Btrim(lots[a].code.value)) != Upper(Btrim(lots[b].code.value))
  }

  /** uq_lots_internal_single_wh_item */
  ghost predicate InternalSingle(lots: Lots) {
    forall a, b :: SameGroup(lots, a, b) ==> a == b
  }

  // ---------------------------------------------------------------- the migration

  ghost function Repointed(t: Tables): Tables {
    Tables(t.lots - MergeMap(t.lots).Keys, RepointStocks(t.lots, t.stocks), RepointLedger(t.lots, t.ledger),
           RepointSnapshots(t.lots, t.snapshots), RepointReceiptLines(t.lots, t.receiptLines))
  }

  ghost function Merge(t: Tables): Outcome<Tables> {
    var t', gone := Repointed(t), MergeMap(t.lots).Keys;
    if !Unique(StockPointers(t'.stocks)) then Aborted
    else if !Unique(LedgerPointers(t'.ledger)) then Aborted
    else if !Unique(SnapshotPointers(t'.snapshots)) then Aborted
    else if !(Unreferenced(gone, StockPointers(t'.stocks)) && Unreferenced(gone, LedgerPointers(t'.ledger)) &&
              Unreferenced(gone, SnapshotPointers(t'.snapshots)) &&
              Unreferenced(gone, ReceiptLinePointers(t'.receiptLines))) then Aborted
    else if !CodeKeysUnique(t'.lots) then Aborted
    else if !InternalSingle(t'.lots) then Aborted
    else Done(t')
  }

  /** Two rows that only differ in which duplicate of one lot they name. */
  ghost predicate GroupOwnsTwo<X>(lots: Lots, ps: map<Id, Pointer<X>>) {
    exists a, b :: a in ps && b in ps && a != b && ps[a].lot.Some? && ps[b].lot.Some? &&
      SameGroup(lots, ps[a].lot.value, ps[b].lot.value) && ps[a].rest == ps[b].rest
  }

  lemma RepointTarget(lots: Lots, id: Id)
    requires Mergeable(lots, id)
    ensures Repoint(lots, MergeMap(lots), lots[id].warehouse, lots[id].item, Some(id)) == Some(KeepId(lots, id))
  {
  }

  lemma SameGroupSameKeep(lots: Lots, a: Id, b: Id)
    requires SameGroup(lots, a, b)
    ensures KeepId(lots, a) == KeepId(lots, b)
  {
    assert IsKept(lots, a, KeepId(lots, a)) && IsKept(lots, b, KeepId(lots, b));
    assert SameGroup(lots, a, KeepId(lots, b)) && SameGroup(lots, b, KeepId(lots, a));
  }

  lemma PointerTarget<X>(lots: Lots, ps: map<Id, Pointer<X>>, r: Id)
    requires ReferencesHold(lots, ps) && r in ps && ps[r].lot.Some?
    ensures var to := RepointAll(lots, ps)[r].lot; var lot := ps[r].lot.value;
      to == Some(if Mergeable(lots, lot) then KeepId(lots, lot) else lot)
  {
    if Mergeable(lots, ps[r].lot.value) {
      RepointTarget(lots, ps[r].lot.value);
    }
  }

  /** A kept lot is kept: the rows a repoint moves onto a key meet only rows that do not move. */
  lemma RepointTargetsStay<X>(lots: Lots, ps: map<Id, Pointer<X>>)
    requires PointersHold(lots, ps)
    ensures ps.Keys == RepointAll(lots, ps).Keys && TargetsStay(ps, RepointAll(lots, ps))
  {
    var after := RepointAll(lots, ps);
    forall a, b | a in ps && b in ps && after[a] == ps[b] ensures after[b] == ps[b] {
      PointerTarget(lots, ps, a);
      PointerTarget(lots, ps, b);
      if Mergeable(lots, ps[a].lot.value) {
        SameGroupSameKeep(lots, ps[a].lot.value, ps[b].lot.value);
      }
    }
  }

  /** Repointing respects a unique key exactly when no merge group owns two rows that agree on its rest. */
  lemma RepointUniqueExactly<X>(lots: Lots, ps: map<Id, Pointer<X>>)
    requires PointersHold(lots, ps) && Unique(ps)
    ensures Unique(RepointAll(lots, ps)) <==> !GroupOwnsTwo(lots, ps)
  {
    var after := RepointAll(lots, ps);
    forall r | r in ps ensures after[r].lot ==
      Some(if Mergeable(lots, ps[r].lot.value) then KeepId(lots, ps[r].lot.value) else ps[r].lot.value)
    {
      PointerTarget(lots, ps, r);
    }
    if a, b :| a in ps && b in ps && a != b && SameGroup(lots, ps[a].lot.value, ps[b].lot.value) && ps[a].rest == ps[b].rest {
      SameGroupSameKeep(lots, ps[a].lot.value, ps[b].lot.value);
      assert after[a] == after[b];
    }
    forall a, b | a in ps && b in ps && a != b && after[a] == after[b] ensures GroupOwnsTwo(lots, ps) {
      assert ps[a] != ps[b];
    }
  }

  /** No repointed row names a removed lot, and each that names one names a lot of its own warehouse and item; rows
      without a lot stay without, the others keep one. */
  lemma RepointedReferencesHold<X>(lots: Lots, ps: map<Id, Pointer<X>>)
    requires ReferencesHold(lots, ps)
    ensures var after := RepointAll(lots, ps);
      && ReferencesHold(lots - MergeMap(lots).Keys, after) && Unreferenced(MergeMap(lots).Keys, after)
      && forall r :: r in ps ==> (after[r].lot.Some? <==> ps[r].lot.Some?)
  {
    forall r | r in ps && ps[r].lot.Some?
      ensures var lot := RepointAll(lots, ps)[r].lot; lot.Some? && lot.value in lots && lot.value !in MergeMap(lots)
    {
      PointerTarget(lots, ps, r);
      var lot := ps[r].lot.value;
      if Mergeable(lots, lot) {
        SameGroupSameKeep(lots, lot, KeepId(lots, lot));
      }
    }
  }

  lemma RepointedPointersHold<X>(lots: Lots, ps: map<Id, Pointer<X>>)
    requires PointersHold(lots, ps)
    ensures PointersHold(lots - MergeMap(lots).Keys, RepointAll(lots, ps))
    ensures Unreferenced(MergeMap(lots).Keys, RepointAll(lots, ps))
  {
    RepointedReferencesHold(lots, ps);
  }

  lemma ConfirmedKeepLots(lots: Lots, receiptLines: map<Id, ReceiptLine>)
    requires ConfirmedHaveLots(receiptLines)
    ensures ConfirmedHaveLots(RepointReceiptLines(lots, receiptLines))
  {
    hide MergeMap;
  }

  /** At most one code-less INTERNAL lot per warehouse and item remains. */
  lemma SurvivorsAreSingle(lots: Lots)
    ensures InternalSingle(lots - MergeMap(lots).Keys)
  {
    var lots' := lots - MergeMap(lots).Keys;
    forall a, b | SameGroup(lots', a, b) ensures a == b {
      assert SameGroup(lots, a, b);
      SameGroupSameKeep(lots, a, b);
    }
  }

  lemma PointersRepoint(t: Tables)
    ensures StockPointers(Repointed(t).stocks) == RepointAll(t.lots, StockPointers(t.stocks))
    ensures LedgerPointers(Repointed(t).ledger) == RepointAll(t.lots, LedgerPointers(t.ledger))
    ensures SnapshotPointers(Repointed(t).snapshots) == RepointAll(t.lots, SnapshotPointers(t.snapshots))
    ensures ReceiptLinePointers(Repointed(t).receiptLines) == RepointAll(t.lots, ReceiptLinePointers(t.receiptLines))
  {
    hide Repoint, MergeMap;
  }

  /** Exactly when the migration goes through: no merge group owns two stock rows, two snapshots of one date, or two
      ledger entries of one document line, and no two supplier codes collide once normalised. The deletes and
      the single-lot index never stand in the way. */
  lemma MergeSucceedsExactly(t: Tables)
    requires SchemaHolds(t)
    ensures Merge(t).Done? <==>
      && !GroupOwnsTwo(t.lots, StockPointers(t.stocks)) && !GroupOwnsTwo(t.lots, LedgerPointers(t.ledger))
      && !GroupOwnsTwo(t.lots, SnapshotPointers(t.snapshots)) && CodeKeysUnique(t.lots)
  {
    hide GroupOwnsTwo, StockPointers, LedgerPointers, SnapshotPointers, ReceiptLinePointers, Unique, Unreferenced,
         ReferencesHold, PointersHold, ConfirmedHaveLots, RepointAll, InternalSingle;
    PointersRepoint(t);
    RepointUniqueExactly(t.lots, StockPointers(t.stocks));
    RepointUniqueExactly(t.lots, LedgerPointers(t.ledger));
    RepointUniqueExactly(t.lots, SnapshotPointers(t.snapshots));
    RepointedPointersHold(t.lots, StockPointers(t.stocks));
    RepointedPointersHold(t.lots, LedgerPointers(t.ledger));
    RepointedPointersHold(t.lots, SnapshotPointers(t.snapshots));
    RepointedReferencesHold(t.lots, ReceiptLinePointers(t.receiptLines));
    ConfirmedKeepLots(t.lots, t.receiptLines);
    SurvivorsAreSingle(t.lots);
    CodedLotsStay(t.lots);
  }

  lemma CodedLotsStay(lots: Lots)
    ensures CodeKeysUnique(lots - MergeMap(lots).Keys) <==> CodeKeysUnique(lots)
  {
    var lots' := lots - MergeMap(lots).Keys;
    forall id | id in lots && lots[id].code.Some? ensures id in lots' {
      assert !Mergeable(lots, id);
    }
  }

  /** SUM(qty) and SUM(delta) of a warehouse and item. */
  function StockRowsOf(stocks: Stocks, warehouse: Id, item: Id): map<Id, int> {
    map s | s in stocks && stocks[s].warehouse == warehouse && stocks[s].item == item :: stocks[s].qty
  }

  function LedgerRowsOf(ledger: Ledger, reason: string, warehouse: Id, item: Id): map<Id, int> {
    map e | e in ledger && ledger[e].warehouse == warehouse && ledger[e].item == item && ledger[e].reason == reason ::
      ledger[e].delta
  }

  ghost function StockTotal(stocks: Stocks, warehouse: Id, item: Id): int {
    Sum(StockRowsOf(stocks, warehouse, item))
  }

  ghost function LedgerTotal(ledger: Ledger, reason: string, warehouse: Id, item: Id): int {
    Sum(LedgerRowsOf(ledger, reason, warehouse, item))
  }

  lemma TotalsUnmoved(t: Tables, reason: string, warehouse: Id, item: Id)
    ensures StockTotal(RepointStocks(t.lots, t.stocks), warehouse, item) == StockTotal(t.stocks, warehouse, item)
    ensures LedgerTotal(RepointLedger(t.lots, t.ledger), reason, warehouse, item) ==
      LedgerTotal(t.ledger, reason, warehouse, item)
  {
    assert StockRowsOf(RepointStocks(t.lots, t.stocks), warehouse, item) == StockRowsOf(t.stocks, warehouse, item);
    assert LedgerRowsOf(RepointLedger(t.lots, t.ledger), reason, warehouse, item) ==
      LedgerRowsOf(t.ledger, reason, warehouse, item);
  }

  /** Keys and references after a merge that went through, the surviving lots, and two of the totals. */
  lemma MergedSchema(t: Tables, warehouse: Id, item: Id, reason: string)
    requires SchemaHolds(t) && Merge(t).Done?
    ensures var t' := Merge(t).state;
      && SchemaHolds(t') && InternalSingle(t'.lots)
      && (forall id :: id in t.lots && !Mergeable(t.lots, id) ==> id in t'.lots && t'.lots[id] == t.lots[id])
      && (forall id :: Mergeable(t.lots, id) ==> (id in t'.lots <==> IsKept(t.lots, id, id)))
      && StockTotal(t'.stocks, warehouse, item) == StockTotal(t.stocks, warehouse, item)
      && LedgerTotal(t'.ledger, reason, warehouse, item) == LedgerTotal(t.ledger, reason, warehouse, item)
  {
    hide StockPointers, LedgerPointers, SnapshotPointers, ReceiptLinePointers, ReferencesHold, PointersHold,
         ConfirmedHaveLots, Unique, Unreferenced, RepointAll, InternalSingle, StockTotal, LedgerTotal, CodeKeysUnique;
    PointersRepoint(t);
    RepointedPointersHold(t.lots, StockPointers(t.stocks));
    RepointedPointersHold(t.lots, LedgerPointers(t.ledger));
    RepointedPointersHold(t.lots, SnapshotPointers(t.snapshots));
    RepointedReferencesHold(t.lots, ReceiptLinePointers(t.receiptLines));
    ConfirmedKeepLots(t.lots, t.receiptLines);
    TotalsUnmoved(t, reason, warehouse, item);
  }

  // ---------------------------------------------------------------- merge and projection

  ghost predicate LotsNotNull(stocks: Stocks, ledger: Ledger) {
    (forall s :: s in stocks ==> stocks[s].lot.Some?) && (forall e :: e in ledger ==> ledger[e].lot.Some?)
  }

  /** The slot that a slot's rows move to. */
  ghost function RepointKey(lots: Lots, k: Key): Key {
    k.(lotKey := LotKey(Repoint(lots, MergeMap(lots), k.warehouse, k.item, Some(k.lotKey))))
  }

  /** The slots, among those in use, that are folded into slot `k`. */
  ghost function FoldedInto(lots: Lots, slots: set<Key>, k: Key): set<Key> {
    set j | j in slots && RepointKey(lots, j) == k
  }

  lemma RepointedStockQty(lots: Lots, stocks: Stocks, slots: set<Key>, k: Key)
    requires LotsNotNull(stocks, map[]) && StockSlots(stocks) <= slots
    ensures StockQty(RepointStocks(lots, stocks), k) ==
      Sum(map j | j in FoldedInto(lots, slots, k) :: StockQty(stocks, j))
  {
    var after := RepointStocks(lots, stocks);
    var xs := FoldedInto(lots, slots, k);
    forall s | s in stocks
      ensures StockKeys(after)[s] == RepointKey(lots, StockKeys(stocks)[s]) && StockKeys(stocks)[s] in slots
    {
      assert StockKey(stocks[s]) in StockSlots(stocks);
    }
    assert Quantities(after) == Quantities(stocks);
    RegroupedSum(Quantities(stocks), StockKeys(stocks), StockKeys(after), xs, k);
    assert GroupSums(Quantities(stocks), StockKeys(stocks), xs) == map j | j in xs :: StockQty(stocks, j);
  }

  lemma RepointedLedgerQty(lots: Lots, ledger: Ledger, slots: set<Key>, k: Key)
    requires LotsNotNull(map[], ledger) && LedgerSlots(ledger, RECEIPT) <= slots
    ensures LedgerQty(RepointLedger(lots, ledger), RECEIPT, k) ==
      Sum(map j | j in FoldedInto(lots, slots, k) :: LedgerQty(ledger, RECEIPT, j))
  {
    var after := RepointLedger(lots, ledger);
    var xs := FoldedInto(lots, slots, k);
    forall e | e in Deltas(ledger, RECEIPT)
      ensures EntryKeys(after)[e] == RepointKey(lots, EntryKeys(ledger)[e]) && EntryKeys(ledger)[e] in slots
    {
      assert EntryKey(ledger[e]) in LedgerSlots(ledger, RECEIPT);
    }
    assert Deltas(after, RECEIPT) == Deltas(ledger, RECEIPT);
    RegroupedSum(Deltas(ledger, RECEIPT), EntryKeys(ledger), EntryKeys(after), xs, k);
    assert GroupSums(Deltas(ledger, RECEIPT), EntryKeys(ledger), xs) == map j | j in xs :: LedgerQty(ledger, RECEIPT, j);
  }

  /** Repointing both tables keeps them reconciled on every slot, whether or not keys collide on the way. */
  lemma RepointKeepsReconciled(lots: Lots, stocks: Stocks, ledger: Ledger)
    requires LotsNotNull(stocks, ledger) && Reconciled(stocks, ledger)
    ensures Reconciled(RepointStocks(lots, stocks), RepointLedger(lots, ledger))
  {
    hide StockQty, LedgerQty, RepointStocks, RepointLedger, FoldedInto;
    var slots := StockSlots(stocks) + LedgerSlots(ledger, RECEIPT);
    forall k ensures StockQty(RepointStocks(lots, stocks), k) == LedgerQty(RepointLedger(lots, ledger), RECEIPT, k) {
      RepointedStockQty(lots, stocks, slots, k);
      RepointedLedgerQty(lots, ledger, slots, k);
      var xs := FoldedInto(lots, slots, k);
      assert (map j | j in xs :: StockQty(stocks, j)) == (map j | j in xs :: LedgerQty(ledger, RECEIPT, j));
    }
  }

  /** If stock and receipt ledger agree on every slot before the merge, they agree on every slot after it. */
  lemma MergeKeepsReconciled(t: Tables)
    requires SchemaHolds(t) && Merge(t).Done? && Reconciled(t.stocks, t.ledger)
    ensures Reconciled(Merge(t).state.stocks, Merge(t).state.ledger)
  {
    NotNullFromSchema(t);
    RepointKeepsReconciled(t.lots, t.stocks, t.ledger);
  }

  lemma NotNullFromSchema(t: Tables)
    requires AllPointersHold(t)
    ensures LotsNotNull(t.stocks, t.ledger)
  {
    forall s | s in t.stocks ensures t.stocks[s].lot.Some? {
      assert StockPointers(t.stocks)[s].lot.Some?;
    }
    forall e | e in t.ledger ensures t.ledger[e].lot.Some? {
      assert LedgerPointers(t.ledger)[e].lot.Some?;
    }
  }

  /** Rebuilding and repointing commute: the table rebuilt from the repointed ledger holds, slot by slot, what repointing
      and summing the rebuilt table gives. */
  lemma RebuildCommutesWithRepoint(lots: Lots, ledger: Ledger, stocks: Stocks, stocks': Stocks, k: Key)
    requires LotsNotNull(map[], ledger)
    requires IsRebuild(ledger, RECEIPT, stocks) && IsRebuild(RepointLedger(lots, ledger), RECEIPT, stocks')
    ensures StockQty(stocks', k) == StockQty(RepointStocks(lots, stocks), k)
  {
    hide StockQty, LedgerQty, RepointStocks, RepointLedger;
    RebuiltLotsNotNull(ledger, stocks);
    forall j ensures StockQty(stocks, j) == LedgerQty(ledger, RECEIPT, j) {
      RebuildProjects(ledger, RECEIPT, stocks, j);
    }
    RepointKeepsReconciled(lots, stocks, ledger);
    RebuildProjects(RepointLedger(lots, ledger), RECEIPT, stocks', k);
  }

  lemma RebuiltLotsNotNull(ledger: Ledger, stocks: Stocks)
    requires LotsNotNull(map[], ledger) && IsRebuild(ledger, RECEIPT, stocks)
    ensures LotsNotNull(stocks, ledger)
  {
    forall s | s in stocks ensures stocks[s].lot.Some? {
      var e :| e in ledger && ledger[e].reason == RECEIPT && EntryKey(ledger[e]) == StockKey(stocks[s]);
      assert InSlot(ledger, RECEIPT, StockKey(stocks[s]), e);
    }
  }
}
