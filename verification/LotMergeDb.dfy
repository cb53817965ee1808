/** The merge as the migration executes it: a temporary mapping, four UPDATEs in sequence, the deletes, and the
    two unique indexes. Any failure rolls the whole migration back. */
module LotMergeDb {
  import opened Sql
  import opened UniqueKeys
  import opened LotLedger
  import opened LotMerge
  import opened LotMergeColumns

  class MergeDb {
    var lots: Lots
    var stocks: Stocks
    var ledger: Ledger
    var snapshots: map<Id, Snapshot>
    var receiptLines: map<Id, ReceiptLine>

    function Contents(): Tables
      reads this
    {
      Tables(lots, stocks, ledger, snapshots, receiptLines)
    }

    /** SELECT warehouse_id, item_id, MIN(id) .. GROUP BY: the lot kept for each group. */
    method KeptLots() returns (keep: map<(Id, Id), Id>)
      ensures forall id :: Mergeable(lots, id) ==>
        (lots[id].warehouse, lots[id].item) in keep && IsKept(lots, id, keep[(lots[id].warehouse, lots[id].item)])
    {
      keep := map[];
      var todo := lots.Keys;
      while todo != {}
        invariant todo <= lots.Keys
        invariant forall g :: g in keep ==>
          Mergeable(lots, keep[g]) && (lots[keep[g]].warehouse, lots[keep[g]].item) == g
        invariant forall id :: Mergeable(lots, id) && id !in todo ==>
          (lots[id].warehouse, lots[id].item) in keep && keep[(lots[id].warehouse, lots[id].item)] <= id
        decreases todo
      {
        var id := NextRow(todo);
        if Mergeable(lots, id) {
          var g := (lots[id].warehouse, lots[id].item);
          if g !in keep || id < keep[g] {
            keep := keep[g := id];
          }
        }
        todo := todo - {id};
      }
    }

    /** CREATE TEMP TABLE tmp_internal_lot_merge */
    method BuildMapping() returns (merged: map<Id, Id>)
      ensures merged == MergeMap(lots)
    {
      var keep := KeptLots();
      merged := map id |
        id in lots && Mergeable(lots, id) && keep[(lots[id].warehouse, lots[id].item)] != id ::
        keep[(lots[id].warehouse, lots[id].item)];
      forall id | Mergeable(lots, id) ensures keep[(lots[id].warehouse, lots[id].item)] == KeepId(lots, id) {
        assert IsKept(lots, id, KeepId(lots, id));
      }
    }

    /** UPDATE stocks_lot .. SET lot_id = m.keep_id, against its unique key. */
    method UpdateStocks(merged: map<Id, Id>) returns (ok: bool)
      requires merged == MergeMap(lots)
      requires PointersHold(lots, StockPointers(stocks)) && Unique(StockPointers(stocks))
      modifies this`stocks
      ensures stocks == RepointStocks(lots, old(stocks)) && StocksMoved(lots, old(stocks), stocks)
      ensures ok == Unique(StockPointers(stocks))
    {
      hide Unique, TargetsStay, MergeMap, Repoint, StocksMoved, LedgerMoved, SnapshotsMoved;
      ghost var before := Contents();
      var keys := StockPointers(stocks);
      stocks := map s | s in stocks ::
        stocks[s].(lot := Repoint(lots, merged, stocks[s].warehouse, stocks[s].item, stocks[s].lot));
      PointersRepoint(before);
      RepointTargetsStay(lots, keys);
      RepointMovesStocks(lots, before.stocks);
      ok := UpdateRowByRow(keys, StockPointers(stocks));
    }

    /** UPDATE stock_ledger .. SET lot_id = m.keep_id, against its unique key. */
    method UpdateLedger(merged: map<Id, Id>) returns (ok: bool)
      requires merged == MergeMap(lots)
      requires PointersHold(lots, LedgerPointers(ledger)) && Unique(LedgerPointers(ledger))
      modifies this`ledger
      ensures ledger == RepointLedger(lots, old(ledger)) && LedgerMoved(lots, old(ledger), ledger)
      ensures ok == Unique(LedgerPointers(ledger))
    {
      hide Unique, TargetsStay, MergeMap, Repoint, StocksMoved, LedgerMoved, SnapshotsMoved;
      ghost var before := Contents();
      var keys := LedgerPointers(ledger);
      ledger := map e | e in ledger ::
        ledger[e].(lot := Repoint(lots, merged, ledger[e].warehouse, ledger[e].item, ledger[e].lot));
      PointersRepoint(before);
      RepointTargetsStay(lots, keys);
      RepointMovesLedger(lots, before.ledger);
      ok := UpdateRowByRow(keys, LedgerPointers(ledger));
    }

    /** UPDATE stock_snapshots .. SET lot_id = m.keep_id, against its unique key. */
    method UpdateSnapshots(merged: map<Id, Id>) returns (ok: bool)
      requires merged == MergeMap(lots)
      requires PointersHold(lots, SnapshotPointers(snapshots)) && Unique(SnapshotPointers(snapshots))
      modifies this`snapshots
      ensures snapshots == RepointSnapshots(lots, old(snapshots)) && SnapshotsMoved(lots, old(snapshots), snapshots)
      ensures ok == Unique(SnapshotPointers(snapshots))
    {
      hide Unique, TargetsStay, MergeMap, Repoint, StocksMoved, LedgerMoved, SnapshotsMoved;
      ghost var before := Contents();
      var keys := SnapshotPointers(snapshots);
      snapshots := map s | s in snapshots ::
        snapshots[s].(lot := Repoint(lots, merged, snapshots[s].warehouse, snapshots[s].item, snapshots[s].lot));
      PointersRepoint(before);
      RepointTargetsStay(lots, keys);
      RepointMovesSnapshots(lots, before.snapshots);
      ok := UpdateRowByRow(keys, SnapshotPointers(snapshots));
    }

    /** UPDATE inbound_receipt_lines, one joined row after the other: no unique key of that table holds the lot. No line
        is left on a lot that is about to go, drafts without a lot stay without, and quantities do not move. */
    method UpdateReceiptLines(merged: map<Id, Id>)
      requires merged == MergeMap(lots)
      modifies this`receiptLines
      ensures receiptLines == RepointReceiptLines(lots, old(receiptLines))
      ensures ReferencesHold(lots, ReceiptLinePointers(old(receiptLines))) ==>
        Unreferenced(merged.Keys, ReceiptLinePointers(receiptLines))
      ensures ReferencesHold(lots, ReceiptLinePointers(old(receiptLines))) ==>
        ReceiptLinesMoved(lots, old(receiptLines), receiptLines)
      ensures forall r :: r in old(receiptLines) ==>
        && r in receiptLines && receiptLines[r].qty == old(receiptLines)[r].qty
        && (receiptLines[r].lot.Some? <==> old(receiptLines)[r].lot.Some?)
    {
      hide MergeMap, ReferencesHold, Unreferenced, ReceiptLinesMoved;
      ghost var before := Contents();
      var todo := receiptLines.Keys;
      while todo != {}
        invariant todo <= receiptLines.Keys == old(receiptLines).Keys
        invariant forall r :: r in receiptLines ==>
          receiptLines[r] == if r in todo then old(receiptLines)[r] else RepointReceiptLines(lots, old(receiptLines))[r]
        decreases todo
      {
        var r := NextRow(todo);
        var line := receiptLines[r];
        if line.lot.Some? && line.lot.value in merged && line.lot.value in lots {
          var lot := lots[line.lot.value];
          if lot.warehouse == line.warehouse && lot.item == line.item {
            receiptLines := receiptLines[r := line.(lot := Some(merged[line.lot.value]))];
          }
        }
        todo := todo - {r};
      }
      assert receiptLines == RepointReceiptLines(lots, old(receiptLines));
      PointersRepoint(before);
      if ReferencesHold(lots, ReceiptLinePointers(before.receiptLines)) {
        RepointedReferencesHold(lots, ReceiptLinePointers(before.receiptLines));
        RepointMovesReceiptLines(lots, before.receiptLines);
      }
    }

    /** DELETE FROM lots: held back by any row that still points at a deleted lot. */
    method DeleteLots(gone: set<Id>) returns (ok: bool)
      modifies this`lots
      ensures lots == old(lots) - gone
      ensures ok == (Unreferenced(gone, StockPointers(stocks)) && Unreferenced(gone, LedgerPointers(ledger)) &&
                     Unreferenced(gone, SnapshotPointers(snapshots)) && Unreferenced(gone, ReceiptLinePointers(receiptLines)))
    {
      lots := lots - gone;
      ok := !Referenced(gone, StockPointers(stocks)) && !Referenced(gone, LedgerPointers(ledger)) &&
        !Referenced(gone, SnapshotPointers(snapshots)) && !Referenced(gone, ReceiptLinePointers(receiptLines));
    }

    /** The statements of the upgrade in sequence, up to the first that fails. */
    method RunStatements() returns (ok: bool)
      requires SchemaHolds(Contents())
      modifies this
      ensures ok == Merge(old(Contents())).Done?
      ensures ok ==> Contents() == Repointed(old(Contents()))
    {
      hide StocksMoved, LedgerMoved, SnapshotsMoved, ReceiptLinesMoved, Unique, PointersHold, ReferencesHold,
           Unreferenced, MergeMap, CodeKeysUnique, InternalSingle, StockPointers,
           LedgerPointers, SnapshotPointers, ReceiptLinePointers, RepointStocks, RepointLedger, RepointSnapshots,
           RepointReceiptLines;
      var merged := BuildMapping();
      ok := UpdateStocks(merged);
      if !ok { return; }
      ok := UpdateLedger(merged);
      if !ok { return; }
      ok := UpdateSnapshots(merged);
      if !ok { return; }
      UpdateReceiptLines(merged);
      ok := DeleteLots(merged.Keys);
      if !ok { return; }
      ok := CodeIndexBuilds(lots) && SingleIndexBuilds(lots);
    }

    method Upgrade() returns (ok: bool)
      requires SchemaHolds(Contents())
      modifies this
      ensures ok == Merge(old(Contents())).Done?
      ensures Contents() == if ok then Merge(old(Contents())).state else old(Contents())
    {
      var before := Contents();
      ok := RunStatements();
      if !ok {
        lots, stocks, ledger := before.lots, before.stocks, before.ledger;
        snapshots, receiptLines := before.snapshots, before.receiptLines;
      }
    }
  }

  /** A DELETE of `gone` is held back by a row that still points there. */
  predicate Referenced<X(!new)>(gone: set<Id>, ps: map<Id, Pointer<X>>)
    ensures Referenced(gone, ps) <==> !Unreferenced(gone, ps)
  {
    exists r :: r in ps.Keys && ps[r].lot.Some? && ps[r].lot.value in gone
  }

  predicate CodeIndexBuilds(lots: Lots)
    ensures CodeIndexBuilds(lots) <==> CodeKeysUnique(lots)
  {
    forall a, b :: a in lots.Keys && b in lots.Keys && a != b && lots[a].code.Some? && lots[b].code.Some? ==>
      (lots[a].warehouse, lots[a].item, Upper(Btrim(lots[a].code.value))) !=
      (lots[b].warehouse, lots[b].item, Upper(Btrim(lots[b].code.value)))
  }

  predicate SingleIndexBuilds(lots: Lots)
    ensures SingleIndexBuilds(lots) <==> InternalSingle(lots)
  {
    forall a, b :: a in lots.Keys && b in lots.Keys && SameGroup(lots, a, b) ==> a == b
  }
}
