/** The rebuild and the assertion as they run over the tables. */
module LotLedgerDb {
  import opened Sql
  import opened MapSums
  import opened LotLedger
  import opened LotLedgerColumns

  class LotDb {
    var ledger: Ledger
    var stocks: Stocks
    var nextId: Id

    /** SELECT MAX(lot_id) over the rows of one slot. */
    method MaxLot(reason: string, k: Key) returns (m: Option<Id>)
      ensures IsMaxLot(ledger, reason, k, m)
    {
      m := None;
      var todo := ledger.Keys;
      while todo != {}
        invariant todo <= ledger.Keys
        invariant m.None? ==> forall e :: InSlot(ledger, reason, k, e) && e !in todo ==> ledger[e].lot.None?
        invariant m.Some? ==> exists e :: InSlot(ledger, reason, k, e) && ledger[e].lot == m
        invariant m.Some? ==> forall e :: InSlot(ledger, reason, k, e) && e !in todo && ledger[e].lot.Some? ==>
          ledger[e].lot.value <= m.value
        decreases todo
      {
        var e := NextRow(todo);
        var lot := ledger[e].lot;
        if InSlot(ledger, reason, k, e) && lot.Some? && (m.None? || lot.value > m.value) {
          m := lot;
        }
        todo := todo - {e};
      }
    }

    /** The two aggregates by slot. */
    method SumLedger(reason: string) returns (agg: map<Key, int>)
      ensures agg == LedgerAgg(ledger, reason)
    {
      agg := SumByKey(Deltas(ledger, reason), EntryKeys(ledger));
      LedgerSlotsAreGroups(ledger, reason);
    }

    method SumStocks() returns (agg: map<Key, int>)
      ensures agg == StocksAgg(stocks)
    {
      agg := SumByKey(Quantities(stocks), StockKeys(stocks));
      StockSlotsAreGroups(stocks);
    }

    /** rebuild_stocks_lot_from_ledger: each row left holds the sum of the entries of its own item, warehouse and lot, and every
        such sum that is not zero has a row. */
    method Rebuild(reason: string) returns (ok: bool)
      modifies this`stocks, this`nextId
      ensures ok == SumsFit(ledger, reason)
      ensures ok ==> IsRebuild(ledger, reason, stocks)
      ensures ok ==> forall s :: s in stocks ==>
        stocks[s].qty == EntrySum(ledger, reason, stocks[s].item, stocks[s].warehouse, stocks[s].lot.GetOr(0)) != 0
      ensures ok ==> forall item, warehouse, lot :: EntrySum(ledger, reason, item, warehouse, lot) != 0 ==>
        exists s :: s in stocks && stocks[s].item == item && stocks[s].warehouse == warehouse && InLot(stocks[s].lot, lot)
      ensures !ok ==> stocks == old(stocks)
    {
      ok := RebuildRows(reason);
      if ok {
        RebuildPerLot(ledger, reason, stocks);
      }
    }

    method RebuildRows(reason: string) returns (ok: bool)
      modifies this`stocks, this`nextId
      ensures ok == SumsFit(ledger, reason)
      ensures ok ==> IsRebuild(ledger, reason, stocks)
      ensures !ok ==> stocks == old(stocks)
    {
      hide LedgerQty, LedgerSlots, IsMaxLot, RebuiltSoFar, IsRebuild;
      var stocks0 := stocks;
      stocks := map[];
      var sums := SumLedger(reason);
      var todo := sums.Keys;
      NothingRebuilt(ledger, reason, sums, nextId);
      while todo != {}
        invariant todo <= sums.Keys
        invariant RebuiltSoFar(ledger, reason, sums, todo, stocks, nextId)
        invariant forall k :: k in sums && k !in todo ==> FitsInteger(sums[k])
        decreases todo
      {
        var k := NextRow(todo);
        if sums[k] != 0 {
          if !FitsInteger(sums[k]) {
            stocks := stocks0;
            return false;
          }
          var lot := MaxLot(reason, k);
          OneMoreSlot(ledger, reason, sums, todo, stocks, nextId, k, lot);
          stocks := stocks[nextId := Stock(k.item, k.warehouse, lot, sums[k])];
          nextId := nextId + 1;
        } else {
          EmptySlot(ledger, reason, sums, todo, stocks, nextId, k);
        }
        todo := todo - {k};
      }
      AllRebuilt(ledger, reason, sums, stocks, nextId);
      assert forall k :: k in LedgerSlots(ledger, reason) ==>
        sums[k] == LedgerQty(ledger, reason, k) && FitsInteger(sums[k]);
      return true;
    }

    /** assert_stocks_lot_matches_ledger_receipt, over the reconcile view. */
    method AssertReconciled() returns (ok: bool)
      ensures ok == AssertionPasses(stocks, ledger)
      ensures ok <==> forall item, warehouse, lot :: LotAgrees(stocks, ledger, item, warehouse, lot)
    {
      AssertionPerLot(stocks, ledger);
      hide LotAgrees;
      var s := SumStocks();
      var a := SumLedger(RECEIPT);
      var diffs := DiffRows(s, a);
      if diffs.Aborted? {
        return false;
      }
      var badCount := CountNonZero(diffs.state);
      return badCount == 0;
    }
  }

  /** A row of the table being rebuilt, for a slot that is done. */
  ghost predicate RowRebuilt(ledger: Ledger, reason: string, sums: map<Key, int>, todo: set<Key>, row: Stock) {
    && StockKey(row) in sums && StockKey(row) !in todo && row.qty == sums[StockKey(row)] != 0
    && IsMaxLot(ledger, reason, StockKey(row), row.lot)
  }

  ghost predicate KeysDiffer(stocks: Stocks) {
    forall a, b :: a in stocks && b in stocks && a != b ==> StockKey(stocks[a]) != StockKey(stocks[b])
  }

  /** The table while the slots `todo` have not been inserted yet. */
  ghost predicate RebuiltSoFar(ledger: Ledger, reason: string, sums: map<Key, int>, todo: set<Key>, stocks: Stocks, nextId: Id) {
    && (forall s :: s in stocks ==> s < nextId && RowRebuilt(ledger, reason, sums, todo, stocks[s]))
    && KeysDiffer(stocks)
    && (forall k :: k in sums && k !in todo && sums[k] != 0 ==> k in StockSlots(stocks))
  }

  lemma NothingRebuilt(ledger: Ledger, reason: string, sums: map<Key, int>, nextId: Id)
    ensures RebuiltSoFar(ledger, reason, sums, sums.Keys, map[], nextId)
  {
  }

  lemma OneMoreSlot(ledger: Ledger, reason: string, sums: map<Key, int>, todo: set<Key>, stocks: Stocks, nextId: Id, k: Key,
                    lot: Option<Id>)
    requires RebuiltSoFar(ledger, reason, sums, todo, stocks, nextId) && k in LedgerSlots(ledger, reason)
    requires k in todo && k in sums && sums[k] != 0 && IsMaxLot(ledger, reason, k, lot)
    ensures RebuiltSoFar(ledger, reason, sums, todo - {k}, stocks[nextId := Stock(k.item, k.warehouse, lot, sums[k])], nextId + 1)
  {
    hide IsMaxLot, StockSlots, LedgerSlots;
    var row := Stock(k.item, k.warehouse, lot, sums[k]);
    MaxLotHasKey(ledger, reason, k, lot);
    assert StockKey(row) == k;
    hide StockKey;
    NewKeyDiffers(stocks, nextId, row);
    SlotsAfterInsert(stocks, nextId, row);
    hide KeysDiffer;
  }

  lemma NewKeyDiffers(stocks: Stocks, id: Id, row: Stock)
    requires KeysDiffer(stocks) && id !in stocks && forall s :: s in stocks ==> StockKey(stocks[s]) != StockKey(row)
    ensures KeysDiffer(stocks[id := row])
  {
    hide StockKey;
  }

  lemma EmptySlot(ledger: Ledger, reason: string, sums: map<Key, int>, todo: set<Key>, stocks: Stocks, nextId: Id, k: Key)
    requires RebuiltSoFar(ledger, reason, sums, todo, stocks, nextId) && k in sums && sums[k] == 0
    ensures RebuiltSoFar(ledger, reason, sums, todo - {k}, stocks, nextId)
  {
    hide IsMaxLot, StockKey, StockSlots;
  }

  lemma AllRebuilt(ledger: Ledger, reason: string, sums: map<Key, int>, stocks: Stocks, nextId: Id)
    requires RebuiltSoFar(ledger, reason, sums, {}, stocks, nextId) && sums == LedgerAgg(ledger, reason)
    ensures IsRebuild(ledger, reason, stocks)
  {
    hide IsMaxLot, LedgerQty;
  }

  lemma SlotsAfterInsert(stocks: Stocks, id: Id, row: Stock)
    requires id !in stocks
    ensures StockSlots(stocks[id := row]) == StockSlots(stocks) + {StockKey(row)}
  {
    var after := stocks[id := row];
    assert after[id] == row;
    forall s | s in stocks ensures StockKey(stocks[s]) in StockSlots(after) {
      assert after[s] == stocks[s];
    }
  }

  lemma MaxLotHasKey(ledger: Ledger, reason: string, k: Key, lot: Option<Id>)
    requires k in LedgerSlots(ledger, reason) && IsMaxLot(ledger, reason, k, lot)
    ensures EntryKey(Entry(k.item, k.warehouse, lot, reason, 0, "", 0)) == k
  {
    var e :| e in ledger && ledger[e].reason == reason && EntryKey(ledger[e]) == k;
    assert InSlot(ledger, reason, k, e);
  }
}
