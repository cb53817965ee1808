/** The ledger projection on the raw columns: slots are told apart by item, warehouse and lot, and a passing assertion means
    that stock and receipt ledger agree for each lot. */
module LotLedgerColumns {
  import opened Sql
  import opened MapSums
  import opened LotLedger

  /** The lot column of a slot: a lot, or none. The slot of rows without a lot is that of lot 0, for its key is
      COALESCE(lot_id, 0). */
  predicate InLot(lot: Option<Id>, x: Id) {
    lot == Some(x) || (lot == None && x == 0)
  }

  /** The ledger rows of a reason with this item, warehouse and lot, and SUM(delta) over them. */
  function EntriesOf(ledger: Ledger, reason: string, item: Id, warehouse: Id, lot: Id): map<Id, int> {
    map e | e in ledger && ledger[e].reason == reason && ledger[e].item == item && ledger[e].warehouse == warehouse &&
            InLot(ledger[e].lot, lot) :: ledger[e].delta
  }

  ghost function EntrySum(ledger: Ledger, reason: string, item: Id, warehouse: Id, lot: Id): int {
    Sum(EntriesOf(ledger, reason, item, warehouse, lot))
  }

  /** The stock rows with this item, warehouse and lot, and SUM(qty) over them. */
  function RowsOf(stocks: Stocks, item: Id, warehouse: Id, lot: Id): map<Id, int> {
    map s | s in stocks && stocks[s].item == item && stocks[s].warehouse == warehouse && InLot(stocks[s].lot, lot) ::
      stocks[s].qty
  }

  ghost function RowSum(stocks: Stocks, item: Id, warehouse: Id, lot: Id): int {
    Sum(RowsOf(stocks, item, warehouse, lot))
  }

  lemma EntrySumIsLedgerQty(ledger: Ledger, reason: string, item: Id, warehouse: Id, lot: Id)
    ensures EntrySum(ledger, reason, item, warehouse, lot) == LedgerQty(ledger, reason, Key(item, warehouse, lot))
  {
    assert Group(Deltas(ledger, reason), EntryKeys(ledger), Key(item, warehouse, lot)) ==
      EntriesOf(ledger, reason, item, warehouse, lot);
  }

  lemma RowSumIsStockQty(stocks: Stocks, item: Id, warehouse: Id, lot: Id)
    ensures RowSum(stocks, item, warehouse, lot) == StockQty(stocks, Key(item, warehouse, lot))
  {
    assert Group(Quantities(stocks), StockKeys(stocks), Key(item, warehouse, lot)) == RowsOf(stocks, item, warehouse, lot);
  }

  /** A rebuilt table, row by row: no two rows share item, warehouse and lot; a row of a lot holds the sum of the entries of that
      very lot, never zero; and every lot whose entries do not add up to zero has its row. */
  lemma RebuildPerLot(ledger: Ledger, reason: string, stocks: Stocks)
    requires IsRebuild(ledger, reason, stocks)
    ensures forall a, b :: a in stocks && b in stocks && a != b ==>
      !(stocks[a].item == stocks[b].item && stocks[a].warehouse == stocks[b].warehouse && stocks[a].lot == stocks[b].lot)
    ensures forall s :: s in stocks ==>
      stocks[s].qty == EntrySum(ledger, reason, stocks[s].item, stocks[s].warehouse, stocks[s].lot.GetOr(0)) != 0
    ensures forall item, warehouse, lot :: EntrySum(ledger, reason, item, warehouse, lot) != 0 ==>
      exists s :: s in stocks && stocks[s].item == item && stocks[s].warehouse == warehouse && InLot(stocks[s].lot, lot)
  {
    forall s | s in stocks
      ensures stocks[s].qty == EntrySum(ledger, reason, stocks[s].item, stocks[s].warehouse, stocks[s].lot.GetOr(0)) != 0
    {
      EntrySumIsLedgerQty(ledger, reason, stocks[s].item, stocks[s].warehouse, stocks[s].lot.GetOr(0));
    }
    forall item, warehouse, lot | EntrySum(ledger, reason, item, warehouse, lot) != 0
      ensures exists s :: s in stocks && stocks[s].item == item && stocks[s].warehouse == warehouse && InLot(stocks[s].lot, lot)
    {
      var k := Key(item, warehouse, lot);
      EntrySumIsLedgerQty(ledger, reason, item, warehouse, lot);
      if k !in LedgerSlots(ledger, reason) {
        NoRowsNoQty(ledger, reason, k);
      }
      var s :| s in stocks && StockKey(stocks[s]) == k;
    }
  }

  /** Stock and receipts of an item, warehouse and lot agree, and fit INTEGER. */
  ghost predicate LotAgrees(stocks: Stocks, ledger: Ledger, item: Id, warehouse: Id, lot: Id) {
    && RowSum(stocks, item, warehouse, lot) == EntrySum(ledger, "RECEIPT", item, warehouse, lot)
    && FitsInteger(EntrySum(ledger, "RECEIPT", item, warehouse, lot))
  }

  lemma LotAgreesAtKey(stocks: Stocks, ledger: Ledger, k: Key)
    ensures LotAgrees(stocks, ledger, k.item, k.warehouse, k.lotKey) <==>
      StockQty(stocks, k) == LedgerQty(ledger, RECEIPT, k) && FitsInteger(LedgerQty(ledger, RECEIPT, k))
    ensures k !in LedgerSlots(ledger, RECEIPT) ==> FitsInteger(LedgerQty(ledger, RECEIPT, k))
  {
    RowSumIsStockQty(stocks, k.item, k.warehouse, k.lotKey);
    EntrySumIsLedgerQty(ledger, "RECEIPT", k.item, k.warehouse, k.lotKey);
    if k !in LedgerSlots(ledger, RECEIPT) {
      NoRowsNoQty(ledger, RECEIPT, k);
    }
  }

  /** Exactly when the assertion passes: for every item, warehouse and lot the quantities in stock add up to the receipts, and
      these sums fit INTEGER. */
  lemma AssertionPerLot(stocks: Stocks, ledger: Ledger)
    ensures AssertionPasses(stocks, ledger) <==>
      forall item, warehouse, lot :: LotAgrees(stocks, ledger, item, warehouse, lot)
  {
    hide AssertionPasses, LotAgrees, StockQty, LedgerQty;
    AssertionPassesExactly(stocks, ledger);
    forall k: Key ensures
      && (LotAgrees(stocks, ledger, k.item, k.warehouse, k.lotKey) <==>
            StockQty(stocks, k) == LedgerQty(ledger, RECEIPT, k) && FitsInteger(LedgerQty(ledger, RECEIPT, k)))
      && (k !in LedgerSlots(ledger, RECEIPT) ==> FitsInteger(LedgerQty(ledger, RECEIPT, k)))
    {
      LotAgreesAtKey(stocks, ledger, k);
    }
    hide LedgerSlots;
    if AssertionPasses(stocks, ledger) {
      forall item: Id, warehouse: Id, lot: Id ensures LotAgrees(stocks, ledger, item, warehouse, lot) {
        var k := Key(item, warehouse, lot);
        assert StockQty(stocks, k) == LedgerQty(ledger, RECEIPT, k);
      }
    } else if forall item, warehouse, lot :: LotAgrees(stocks, ledger, item, warehouse, lot) {
      forall k: Key ensures StockQty(stocks, k) == LedgerQty(ledger, RECEIPT, k) && FitsInteger(LedgerQty(ledger, RECEIPT, k)) {
        assert LotAgrees(stocks, ledger, k.item, k.warehouse, k.lotKey);
      }
    }
  }
}
