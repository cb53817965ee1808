/** The lot merge on the raw columns of its five tables: which lots go, what happens to every row, which rows stand in the way,
    and which totals stay. */
module LotMergeColumns {
  import opened Sql
  import opened MapSums
  import opened UniqueKeys
  import opened LotLedger
  import opened LotMerge

  /** Two code-less INTERNAL lots of one warehouse and item, possibly the same. */
  predicate SameLot(lots: Lots, a: Id, b: Id) {
    && a in lots && lots[a].source == INTERNAL && lots[a].code == None
    && b in lots && lots[b].source == INTERNAL && lots[b].code == None
    && lots[a].warehouse == lots[b].warehouse && lots[a].item == lots[b].item
  }

  /** A lot is removed when there is a smaller one of its kind. */
  ghost predicate Removed(lots: Lots, id: Id) {
    exists k: Id :: SameLot(lots, id, k) && k < id
  }

  /** `k` is the smallest of its kind. */
  ghost predicate KeptFor(lots: Lots, id: Id, k: Id) {
    SameLot(lots, id, k) && forall j: Id :: SameLot(lots, id, j) ==> k <= j
  }

  /** What the merge does to a lot column: a removed lot gives way to the kept one, and everything else stays. */
  ghost predicate LotMoved(lots: Lots, old_: Option<Id>, new_: Option<Id>) {
    if old_.Some? && Removed(lots, old_.value) then new_.Some? && KeptFor(lots, old_.value, new_.value) else new_ == old_
  }

  lemma MappedAreRemoved(lots: Lots, id: Id)
    ensures id in MergeMap(lots) <==> Removed(lots, id)
    ensures id in MergeMap(lots) ==> KeptFor(lots, id, MergeMap(lots)[id])
  {
    assert forall a, b :: SameLot(lots, a, b) <==> SameGroup(lots, a, b);
    if Mergeable(lots, id) {
      var keep := KeepId(lots, id);
      assert IsKept(lots, id, keep) && SameLot(lots, id, keep);
      assert SameGroup(lots, id, id) && keep <= id;
    }
  }

  lemma PointerMoves<X>(lots: Lots, ps: map<Id, Pointer<X>>, r: Id)
    requires ReferencesHold(lots, ps) && r in ps
    ensures r in RepointAll(lots, ps) && LotMoved(lots, ps[r].lot, RepointAll(lots, ps)[r].lot)
  {
    if ps[r].lot.Some? {
      MappedAreRemoved(lots, ps[r].lot.value);
    }
    hide MergeMap;
  }

  /** The updates join on lot, warehouse and item: a row that named a lot of another warehouse or item would be left alone. */
  lemma RepointJoinsOnDimensions(lots: Lots, merged: map<Id, Id>, warehouse: Id, item: Id, lot: Option<Id>)
    ensures Repoint(lots, merged, warehouse, item, lot) != lot ==>
      lot.Some? && lot.value in lots && lots[lot.value].warehouse == warehouse && lots[lot.value].item == item
  {
  }

  ghost predicate StocksMoved(lots: Lots, old_: Stocks, new_: Stocks) {
    old_.Keys == new_.Keys &&
    forall s :: s in old_ ==>
      && new_[s].item == old_[s].item && new_[s].warehouse == old_[s].warehouse && new_[s].qty == old_[s].qty
      && LotMoved(lots, old_[s].lot, new_[s].lot)
  }

  ghost predicate LedgerMoved(lots: Lots, old_: Ledger, new_: Ledger) {
    old_.Keys == new_.Keys &&
    forall e :: e in old_ ==>
      && new_[e].item == old_[e].item && new_[e].warehouse == old_[e].warehouse && new_[e].delta == old_[e].delta
      && new_[e].reason == old_[e].reason && new_[e].ref == old_[e].ref && new_[e].refLine == old_[e].refLine
      && LotMoved(lots, old_[e].lot, new_[e].lot)
  }

  ghost predicate SnapshotsMoved(lots: Lots, old_: map<Id, Snapshot>, new_: map<Id, Snapshot>) {
    old_.Keys == new_.Keys &&
    forall s :: s in old_ ==>
      && new_[s].date == old_[s].date && new_[s].warehouse == old_[s].warehouse && new_[s].item == old_[s].item
      && new_[s].qty == old_[s].qty && LotMoved(lots, old_[s].lot, new_[s].lot)
  }

  ghost predicate ReceiptLinesMoved(lots: Lots, old_: map<Id, ReceiptLine>, new_: map<Id, ReceiptLine>) {
    old_.Keys == new_.Keys &&
    forall r :: r in old_ ==>
      && new_[r].warehouse == old_[r].warehouse && new_[r].item == old_[r].item && new_[r].confirmed == old_[r].confirmed
      && new_[r].qty == old_[r].qty && LotMoved(lots, old_[r].lot, new_[r].lot)
  }

  lemma RepointMovesStocks(lots: Lots, stocks: Stocks)
    requires ReferencesHold(lots, StockPointers(stocks))
    ensures StocksMoved(lots, stocks, RepointStocks(lots, stocks))
  {
    hide MergeMap, LotMoved;
    assert StockPointers(RepointStocks(lots, stocks)) == RepointAll(lots, StockPointers(stocks));
    forall s | s in stocks ensures LotMoved(lots, stocks[s].lot, RepointStocks(lots, stocks)[s].lot) {
      PointerMoves(lots, StockPointers(stocks), s);
    }
  }

  lemma RepointMovesLedger(lots: Lots, ledger: Ledger)
    requires ReferencesHold(lots, LedgerPointers(ledger))
    ensures LedgerMoved(lots, ledger, RepointLedger(lots, ledger))
  {
    hide MergeMap, LotMoved;
    assert LedgerPointers(RepointLedger(lots, ledger)) == RepointAll(lots, LedgerPointers(ledger));
    forall e | e in ledger ensures LotMoved(lots, ledger[e].lot, RepointLedger(lots, ledger)[e].lot) {
      PointerMoves(lots, LedgerPointers(ledger), e);
    }
  }

  lemma RepointMovesSnapshots(lots: Lots, t: map<Id, Snapshot>)
    requires ReferencesHold(lots, SnapshotPointers(t))
    ensures SnapshotsMoved(lots, t, RepointSnapshots(lots, t))
  {
    hide MergeMap, LotMoved;
    assert SnapshotPointers(RepointSnapshots(lots, t)) == RepointAll(lots, SnapshotPointers(t));
    forall s | s in t ensures LotMoved(lots, t[s].lot, RepointSnapshots(lots, t)[s].lot) {
      PointerMoves(lots, SnapshotPointers(t), s);
    }
  }

  lemma RepointMovesReceiptLines(lots: Lots, t: map<Id, ReceiptLine>)
    requires ReferencesHold(lots, ReceiptLinePointers(t))
    ensures ReceiptLinesMoved(lots, t, RepointReceiptLines(lots, t))
  {
    hide MergeMap, LotMoved;
    assert ReceiptLinePointers(RepointReceiptLines(lots, t)) == RepointAll(lots, ReceiptLinePointers(t));
    forall r | r in t ensures LotMoved(lots, t[r].lot, RepointReceiptLines(lots, t)[r].lot) {
      PointerMoves(lots, ReceiptLinePointers(t), r);
    }
  }

  /** The whole effect of a merge that went through: exactly the lots with a smaller one of their kind are removed, and no row
      changes in anything but its lot, which changes only from a removed lot to the kept one of its kind. */
  lemma MergeOnlyMovesLots(t: Tables)
    requires SchemaHolds(t) && Merge(t).Done?
    ensures var t' := Merge(t).state;
      && (forall id :: id in t'.lots <==> id in t.lots && !Removed(t.lots, id))
      && (forall id :: id in t'.lots ==> t'.lots[id] == t.lots[id])
      && StocksMoved(t.lots, t.stocks, t'.stocks) && LedgerMoved(t.lots, t.ledger, t'.ledger)
      && SnapshotsMoved(t.lots, t.snapshots, t'.snapshots) && ReceiptLinesMoved(t.lots, t.receiptLines, t'.receiptLines)
  {
    hide StocksMoved, LedgerMoved, SnapshotsMoved, ReceiptLinesMoved, MergeMap, RepointStocks, RepointLedger, RepointSnapshots,
         RepointReceiptLines, StockPointers, LedgerPointers, SnapshotPointers, ReceiptLinePointers, Unique, Unreferenced,
         ReferencesHold, CodeKeysUnique, InternalSingle, Removed;
    RepointMovesStocks(t.lots, t.stocks);
    RepointMovesLedger(t.lots, t.ledger);
    RepointMovesSnapshots(t.lots, t.snapshots);
    RepointMovesReceiptLines(t.lots, t.receiptLines);
    forall id ensures id in MergeMap(t.lots) <==> Removed(t.lots, id) {
      MappedAreRemoved(t.lots, id);
    }
  }

  // ---------------------------------------------------------------- totals

  /** SUM(qty) of a date, warehouse and item. */
  ghost function SnapshotTotal(t: map<Id, Snapshot>, date: int, warehouse: Id, item: Id): int {
    Sum(map s | s in t && t[s].date == date && t[s].warehouse == warehouse && t[s].item == item :: t[s].qty)
  }

  ghost function ReceiptTotal(t: map<Id, ReceiptLine>, warehouse: Id, item: Id): int {
    Sum(map r | r in t && t[r].warehouse == warehouse && t[r].item == item :: t[r].qty)
  }

  lemma SnapshotTotalStays(lots: Lots, old_: map<Id, Snapshot>, new_: map<Id, Snapshot>, date: int, warehouse: Id, item: Id)
    requires SnapshotsMoved(lots, old_, new_)
    ensures SnapshotTotal(new_, date, warehouse, item) == SnapshotTotal(old_, date, warehouse, item)
  {
    hide LotMoved;
    assert (map s | s in new_ && new_[s].date == date && new_[s].warehouse == warehouse && new_[s].item == item :: new_[s].qty)
      == (map s | s in old_ && old_[s].date == date && old_[s].warehouse == warehouse && old_[s].item == item :: old_[s].qty);
  }

  lemma ReceiptTotalStays(lots: Lots, old_: map<Id, ReceiptLine>, new_: map<Id, ReceiptLine>, warehouse: Id, item: Id)
    requires ReceiptLinesMoved(lots, old_, new_)
    ensures ReceiptTotal(new_, warehouse, item) == ReceiptTotal(old_, warehouse, item)
  {
    hide LotMoved;
    assert (map r | r in new_ && new_[r].warehouse == warehouse && new_[r].item == item :: new_[r].qty)
      == (map r | r in old_ && old_[r].warehouse == warehouse && old_[r].item == item :: old_[r].qty);
  }

  /** What a merge that went through leaves behind: keys and references hold, one code-less INTERNAL lot of each kind remains,
      no row of the four tables changes in anything but its lot, and every total is what it was. */
  lemma MergeKeepsSchema(t: Tables, reason: string, date: int, warehouse: Id, item: Id)
    requires SchemaHolds(t) && Merge(t).Done?
    ensures var t' := Merge(t).state;
      && SchemaHolds(t') && InternalSingle(t'.lots)
      && (forall id :: id in t'.lots <==> id in t.lots && !Removed(t.lots, id))
      && (forall id :: id in t'.lots ==> t'.lots[id] == t.lots[id])
      && StocksMoved(t.lots, t.stocks, t'.stocks) && LedgerMoved(t.lots, t.ledger, t'.ledger)
      && SnapshotsMoved(t.lots, t.snapshots, t'.snapshots) && ReceiptLinesMoved(t.lots, t.receiptLines, t'.receiptLines)
      && StockTotal(t'.stocks, warehouse, item) == StockTotal(t.stocks, warehouse, item)
      && LedgerTotal(t'.ledger, reason, warehouse, item) == LedgerTotal(t.ledger, reason, warehouse, item)
      && SnapshotTotal(t'.snapshots, date, warehouse, item) == SnapshotTotal(t.snapshots, date, warehouse, item)
      && ReceiptTotal(t'.receiptLines, warehouse, item) == ReceiptTotal(t.receiptLines, warehouse, item)
  {
    hide SchemaHolds, Merge, InternalSingle, StockTotal, LedgerTotal, SnapshotTotal, ReceiptTotal, StocksMoved, LedgerMoved,
         SnapshotsMoved, ReceiptLinesMoved, Removed, Mergeable, IsKept;
    MergedSchema(t, warehouse, item, reason);
    MergeOnlyMovesLots(t);
    SnapshotTotalStays(t.lots, t.snapshots, Merge(t).state.snapshots, date, warehouse, item);
    ReceiptTotalStays(t.lots, t.receiptLines, Merge(t).state.receiptLines, warehouse, item);
  }

  // ---------------------------------------------------------------- what stands in the way

  /** Two rows name two lots of one kind. */
  predicate NameSameLot(lots: Lots, a: Option<Id>, b: Option<Id>) {
    a.Some? && b.Some? && SameLot(lots, a.value, b.value)
  }

  predicate StocksCollide(t: Tables, a: Id, b: Id) {
    a in t.stocks && b in t.stocks && a != b && NameSameLot(t.lots, t.stocks[a].lot, t.stocks[b].lot)
  }

  predicate EntriesCollide(t: Tables, a: Id, b: Id) {
    a in t.ledger && b in t.ledger && a != b && NameSameLot(t.lots, t.ledger[a].lot, t.ledger[b].lot) &&
    t.ledger[a].reason == t.ledger[b].reason && t.ledger[a].ref == t.ledger[b].ref && t.ledger[a].refLine == t.ledger[b].refLine
  }

  predicate SnapshotsCollide(t: Tables, a: Id, b: Id) {
    a in t.snapshots && b in t.snapshots && a != b && NameSameLot(t.lots, t.snapshots[a].lot, t.snapshots[b].lot) &&
    t.snapshots[a].date == t.snapshots[b].date
  }

  predicate CodesCollide(lots: Lots, a: Id, b: Id) {
    a in lots && b in lots && a != b && lots[a].code.Some? && lots[b].code.Some? &&
    lots[a].warehouse == lots[b].warehouse && lots[a].item == lots[b].item &&
    SameUpToCase(Btrim(lots[a].code.value), Btrim(lots[b].code.value))
  }

  lemma OwnsTwoStocks(t: Tables)
    ensures GroupOwnsTwo(t.lots, StockPointers(t.stocks)) <==> exists a, b :: StocksCollide(t, a, b)
  {
    var ps := StockPointers(t.stocks);
    if a, b :| StocksCollide(t, a, b) {
      assert a in ps && b in ps && SameGroup(t.lots, ps[a].lot.value, ps[b].lot.value) && ps[a].rest == ps[b].rest;
    }
    if a, b :| a in ps && b in ps && a != b && ps[a].lot.Some? && ps[b].lot.Some? &&
               SameGroup(t.lots, ps[a].lot.value, ps[b].lot.value) && ps[a].rest == ps[b].rest {
      assert StocksCollide(t, a, b);
    }
  }

  lemma OwnsTwoEntries(t: Tables)
    ensures GroupOwnsTwo(t.lots, LedgerPointers(t.ledger)) <==> exists a, b :: EntriesCollide(t, a, b)
  {
    var ps := LedgerPointers(t.ledger);
    if a, b :| EntriesCollide(t, a, b) {
      assert a in ps && b in ps && SameGroup(t.lots, ps[a].lot.value, ps[b].lot.value) && ps[a].rest == ps[b].rest;
    }
    if a, b :| a in ps && b in ps && a != b && ps[a].lot.Some? && ps[b].lot.Some? &&
               SameGroup(t.lots, ps[a].lot.value, ps[b].lot.value) && ps[a].rest == ps[b].rest {
      assert EntriesCollide(t, a, b);
    }
  }

  lemma OwnsTwoSnapshots(t: Tables)
    ensures GroupOwnsTwo(t.lots, SnapshotPointers(t.snapshots)) <==> exists a, b :: SnapshotsCollide(t, a, b)
  {
    var ps := SnapshotPointers(t.snapshots);
    if a, b :| SnapshotsCollide(t, a, b) {
      assert a in ps && b in ps && SameGroup(t.lots, ps[a].lot.value, ps[b].lot.value) && ps[a].rest == ps[b].rest;
    }
    if a, b :| a in ps && b in ps && a != b && ps[a].lot.Some? && ps[b].lot.Some? &&
               SameGroup(t.lots, ps[a].lot.value, ps[b].lot.value) && ps[a].rest == ps[b].rest {
      assert SnapshotsCollide(t, a, b);
    }
  }

  lemma CodesOnColumns(lots: Lots)
    ensures CodeKeysUnique(lots) <==> forall a, b :: !CodesCollide(lots, a, b)
  {
    hide Btrim, Upper, SameUpToCase;
    forall a, b | a in lots && b in lots && lots[a].code.Some? && lots[b].code.Some?
      ensures Upper(Btrim(lots[a].code.value)) == Upper(Btrim(lots[b].code.value)) <==>
        SameUpToCase(Btrim(lots[a].code.value), Btrim(lots[b].code.value))
    {
      CaseFolding(Btrim(lots[a].code.value), Btrim(lots[b].code.value));
    }
    if !CodeKeysUnique(lots) {
      var a, b :| a in lots && b in lots && a != b && lots[a].code.Some? && lots[b].code.Some? &&
        lots[a].warehouse == lots[b].warehouse && lots[a].item == lots[b].item &&
        Upper(Btrim(lots[a].code.value)) == Upper(Btrim(lots[b].code.value));
      assert CodesCollide(lots, a, b);
    }
  }

  /** Exactly which rows stand in the way of the merge. */
  lemma MergeSucceedsOnColumns(t: Tables)
    requires SchemaHolds(t)
    ensures Merge(t).Done? <==>
      forall a, b ::
        !StocksCollide(t, a, b) && !EntriesCollide(t, a, b) && !SnapshotsCollide(t, a, b) && !CodesCollide(t.lots, a, b)
  {
    hide SchemaHolds, Merge, GroupOwnsTwo, CodeKeysUnique, StocksCollide, EntriesCollide, SnapshotsCollide, CodesCollide;
    MergeSucceedsExactly(t);
    OwnsTwoStocks(t);
    OwnsTwoEntries(t);
    OwnsTwoSnapshots(t);
    CodesOnColumns(t.lots);
  }

  // ---------------------------------------------------------------- the schema

  /** Lot `lot` exists, for this warehouse and item. */
  predicate NamesLot(lots: Lots, lot: Option<Id>, warehouse: Id, item: Id) {
    lot.Some? && lot.value in lots && lots[lot.value].warehouse == warehouse && lots[lot.value].item == item
  }

  ghost predicate StockSchema(lots: Lots, t: Stocks) {
    && (forall s :: s in t ==> NamesLot(lots, t[s].lot, t[s].warehouse, t[s].item))
    && (forall a, b :: a in t && b in t && a != b ==>
          !(t[a].item == t[b].item && t[a].warehouse == t[b].warehouse && t[a].lot == t[b].lot))
  }

  ghost predicate LedgerSchema(lots: Lots, t: Ledger) {
    && (forall e :: e in t ==> NamesLot(lots, t[e].lot, t[e].warehouse, t[e].item))
    && (forall a, b :: a in t && b in t && a != b ==>
          !(t[a].reason == t[b].reason && t[a].ref == t[b].ref && t[a].refLine == t[b].refLine &&
            t[a].item == t[b].item && t[a].warehouse == t[b].warehouse && t[a].lot == t[b].lot))
  }

  ghost predicate SnapshotSchema(lots: Lots, t: map<Id, Snapshot>) {
    && (forall s :: s in t ==> NamesLot(lots, t[s].lot, t[s].warehouse, t[s].item))
    && (forall a, b :: a in t && b in t && a != b ==>
          !(t[a].date == t[b].date && t[a].warehouse == t[b].warehouse && t[a].item == t[b].item && t[a].lot == t[b].lot))
  }

  /** Only a draft line may lack its lot. */
  ghost predicate ReceiptLineSchema(lots: Lots, t: map<Id, ReceiptLine>) {
    forall r :: r in t ==>
      if t[r].lot.Some? then NamesLot(lots, t[r].lot, t[r].warehouse, t[r].item) else !t[r].confirmed
  }

  lemma StockSchemaHolds(lots: Lots, t: Stocks)
    ensures PointersHold(lots, StockPointers(t)) && Unique(StockPointers(t)) <==> StockSchema(lots, t)
  {
    var ps := StockPointers(t);
    assert Unique(ps) <==> forall a, b :: a in t && b in t && a != b ==> ps[a] != ps[b];
    hide Unique;
    assert PointersHold(lots, ps) <==> forall s :: s in t ==> NamesLot(lots, ps[s].lot, ps[s].warehouse, ps[s].item);
  }

  lemma LedgerSchemaHolds(lots: Lots, t: Ledger)
    ensures PointersHold(lots, LedgerPointers(t)) && Unique(LedgerPointers(t)) <==> LedgerSchema(lots, t)
  {
    var ps := LedgerPointers(t);
    assert Unique(ps) <==> forall a, b :: a in t && b in t && a != b ==> ps[a] != ps[b];
    hide Unique;
    assert PointersHold(lots, ps) <==> forall s :: s in t ==> NamesLot(lots, ps[s].lot, ps[s].warehouse, ps[s].item);
  }

  lemma SnapshotSchemaHolds(lots: Lots, t: map<Id, Snapshot>)
    ensures PointersHold(lots, SnapshotPointers(t)) && Unique(SnapshotPointers(t)) <==> SnapshotSchema(lots, t)
  {
    var ps := SnapshotPointers(t);
    assert Unique(ps) <==> forall a, b :: a in t && b in t && a != b ==> ps[a] != ps[b];
    hide Unique;
    assert PointersHold(lots, ps) <==> forall s :: s in t ==> NamesLot(lots, ps[s].lot, ps[s].warehouse, ps[s].item);
  }

  lemma ReceiptLineSchemaHolds(lots: Lots, t: map<Id, ReceiptLine>)
    ensures ReferencesHold(lots, ReceiptLinePointers(t)) && ConfirmedHaveLots(t) <==> ReceiptLineSchema(lots, t)
  {
    var ps := ReceiptLinePointers(t);
    assert forall r :: r in t <==> r in ps;
    assert forall r :: r in t ==> ps[r].lot == t[r].lot && ps[r].warehouse == t[r].warehouse && ps[r].item == t[r].item;
    hide ReceiptLinePointers;
  }

  /** What the schema demands of the five tables. */
  lemma SchemaOnColumns(t: Tables)
    ensures SchemaHolds(t) <==>
      StockSchema(t.lots, t.stocks) && LedgerSchema(t.lots, t.ledger) && SnapshotSchema(t.lots, t.snapshots) &&
      ReceiptLineSchema(t.lots, t.receiptLines)
  {
    hide PointersHold, ReferencesHold, ConfirmedHaveLots, Unique, StockPointers, LedgerPointers, SnapshotPointers,
         ReceiptLinePointers, StockSchema, LedgerSchema, SnapshotSchema, ReceiptLineSchema;
    StockSchemaHolds(t.lots, t.stocks);
    LedgerSchemaHolds(t.lots, t.ledger);
    SnapshotSchemaHolds(t.lots, t.snapshots);
    ReceiptLineSchemaHolds(t.lots, t.receiptLines);
  }
}
