/** The collapse and its inverse as the migration executes them, statement after statement over the tables. */
module BatchCollapseDb {
  import opened Sql
  import opened MapSums
  import opened UniqueKeys
  import opened BatchCollapse
  import opened BatchCollapseColumns

  class CollapseDb {
    var items: Items
    var stocks: Stocks
    var ledger: Ledger
    var stocksBackup: seq<Stocks>
    var nullBackup: map<Slot, int>
    var ledgerBackup: map<Id, Option<string>>

    function Contents(): Tables
      reads this
    {
      Tables(items, stocks, ledger, stocksBackup, nullBackup, ledgerBackup)
    }

    /** INSERT INTO .._stocks_backup and .._stocks_null_backup */
    method BackUpStocks()
      modifies this`stocksBackup, this`nullBackup
      ensures stocksBackup == old(stocksBackup) + [FakeRows(items, stocks)]
      ensures nullBackup == NullQtys(items, stocks) + old(nullBackup)
    {
      stocksBackup := stocksBackup + [FakeRows(items, stocks)];
      hide FakeRows, Affected;
      var todo := Affected(items, stocks);
      ghost var nullBackup0 := nullBackup;
      while todo != {}
        invariant todo <= Affected(items, stocks)
        invariant stocksBackup == old(stocksBackup) + [FakeRows(items, stocks)]
        invariant nullBackup == NullQtys(items, stocks) - todo + nullBackup0
        decreases todo
      {
        var slot := NextRow(todo);
        if slot !in nullBackup {
          nullBackup := nullBackup[slot := NullQty(stocks, slot)];
        }
        todo := todo - {slot};
      }
    }

    /** WITH agg AS (.. SUM(s.qty) ..) INSERT INTO stocks .. ON CONFLICT DO UPDATE SET qty = stocks.qty + EXCLUDED.qty */
    method FoldIntoNullSlots() returns (ok: bool)
      requires forall k :: k in stocks ==> k.codeKey == CodeKey(stocks[k].code)
      modifies this`stocks
      ensures ok == SumsFit(items, old(stocks))
      ensures ok ==> stocks == FoldedStocks(items, old(stocks), Affected(items, old(stocks)))
    {
      hide FakeRows, FakeQtys, AddQty, Affected, FoldedStocks;
      var agg := SumByKey(FakeQtyColumn(items, stocks), FakeSlotColumn(items, stocks));
      ghost var before := stocks;
      AggregateIsAddQty(items, before, agg);
      NothingFolded(items, before);
      var todo := agg.Keys;
      assert agg.Keys - todo == {};
      while todo != {}
        invariant todo <= agg.Keys
        invariant stocks == FoldedStocks(items, before, agg.Keys - todo)
        invariant forall slot :: slot in agg.Keys - todo ==>
          FitsInteger(agg[slot]) && FitsInteger(Upserted(before, slot, agg[slot]).qty)
        decreases todo
      {
        var slot := NextRow(todo);
        var k := NullKey(slot);
        OneMoreSlotFolded(items, before, agg.Keys - todo, slot);
        var row := if k in stocks then stocks[k].(qty := stocks[k].qty + agg[slot]) else Stock(None, agg[slot]);
        if !FitsInteger(agg[slot]) || !FitsInteger(row.qty) {
          return false;
        }
        assert agg.Keys - (todo - {slot}) == agg.Keys - todo + {slot};
        stocks := stocks[k := row];
        todo := todo - {slot};
      }
      assert agg.Keys - todo == agg.Keys;
      return true;
    }

    /** DELETE FROM stocks USING items */
    method DeleteFakes()
      modifies this`stocks
      ensures stocks == old(stocks) - FakeRows(items, old(stocks)).Keys
    {
      stocks := map k | k in stocks && !Fake(items, k.slot.item, stocks[k].code) :: stocks[k];
    }

    /** INSERT INTO .._ledger_backup .. ON CONFLICT (ledger_id) DO NOTHING */
    method BackUpCodes()
      modifies this`ledgerBackup
      ensures ledgerBackup == FakeCodes(items, ledger) + old(ledgerBackup)
    {
      hide Fake;
      ledgerBackup := map e | e in FakeEntries(items, ledger).Keys + ledgerBackup.Keys ::
        if e in ledgerBackup then ledgerBackup[e] else ledger[e].code;
    }

    /** The ledger backup, and UPDATE stock_ledger SET batch_code = NULL against its unique key. */
    method CollapseLedger() returns (ok: bool)
      requires Unique(LedgerKeys(ledger))
      modifies this`ledger, this`ledgerBackup
      ensures ledger == CollapsedLedger(items, old(ledger))
      ensures ok == Unique(LedgerKeys(ledger))
      ensures ledgerBackup == FakeCodes(items, old(ledger)) + old(ledgerBackup)
    {
      hide Unique, TargetsStay, LedgerKeys, Fake;
      var keys := LedgerKeys(ledger);
      BackUpCodes();
      CollapseTargetsStay(items, ledger);
      ledger := map e | e in ledger ::
        if Fake(items, ledger[e].item, ledger[e].code) then ledger[e].(code := None) else ledger[e];
      assert ledger == CollapsedLedger(items, old(ledger));
      ok := UpdateRowByRow(keys, LedgerKeys(ledger));
    }

    method Upgrade() returns (ok: bool)
      requires SchemaHolds(Contents())
      modifies this
      ensures ok == BatchCollapse.Upgrade(old(Contents())).Done?
      ensures Contents() == if ok then BatchCollapse.Upgrade(old(Contents())).state else old(Contents())
      ensures ok ==> forall k :: k in old(stocks) && Erased(items, k.slot.item, old(stocks)[k].code) ==> k !in stocks
      ensures ok ==> forall k :: k in old(stocks) && !NoShelfLife(items, k.slot.item) ==>
        k in stocks && stocks[k] == old(stocks)[k]
      ensures ok ==> forall e :: e in old(ledger) ==>
        && e in ledger
        && ledger[e] == if Erased(items, old(ledger)[e].item, old(ledger)[e].code) then old(ledger)[e].(code := None)
                        else old(ledger)[e]
    {
      hide Erased, NoShelfLife, FakeRows, FakeCodes, NullQtys, Affected, CollapsedStocks, CollapsedLedger,
           FoldedStocks, SumsFit, LedgerKeys, Unique;
      var before := Contents();
      BackUpStocks();
      ok := FoldIntoNullSlots();
      if ok {
        FoldThenDelete(items, before.stocks);
        DeleteFakes();
        ok := CollapseLedger();
      }
      if !ok {
        stocks, ledger := before.stocks, before.ledger;
        stocksBackup, nullBackup, ledgerBackup := before.stocksBackup, before.nullBackup, before.ledgerBackup;
      } else {
        UpgradeOnColumns(before);
      }
    }

    /** The three statements of the downgrade. A unique check that fails, or a backup key named twice, aborts. What is
        committed is always the downgrade; and where no entry waits for another to move, as after a first upgrade,
        every downgrade that can be committed is. */
    method Downgrade() returns (ok: bool)
      requires Unique(LedgerKeys(ledger))
      modifies this
      ensures ok ==> BatchCollapse.Downgrade(old(Contents())).Done?
      ensures Contents() == if ok then BatchCollapse.Downgrade(old(Contents())).state else old(Contents())
      ensures RestoreTargetsStay(old(ledger), old(ledgerBackup)) ==> ok == BatchCollapse.Downgrade(old(Contents())).Done?
    {
      hide Unique, LedgerKeys, RestoredLedger, RestoredNulls, RestoredFakes, BackupClashes, BackupRows, RestoreTargetsStay;
      var before := Contents();
      ok := RestoreLedger();
      if ok {
        RestoreNulls();
        ok := RestoreFakes();
      }
      if !ok {
        stocks, ledger := before.stocks, before.ledger;
      }
    }

    /** UPDATE stock_ledger SET batch_code = b.batch_code, against its unique key. */
    method RestoreLedger() returns (ok: bool)
      requires Unique(LedgerKeys(ledger))
      modifies this`ledger
      ensures ledger == RestoredLedger(old(ledger), ledgerBackup)
      ensures ok ==> Unique(LedgerKeys(ledger))
      ensures RestoreTargetsStay(old(ledger), ledgerBackup) ==> ok == Unique(LedgerKeys(ledger))
    {
      hide Unique, EntryKey, TargetsStay;
      var keys := LedgerKeys(ledger);
      var todo := ledger.Keys * ledgerBackup.Keys;
      while todo != {}
        invariant todo <= ledgerBackup.Keys && ledger.Keys == old(ledger).Keys
        invariant forall e :: e in ledger ==>
          ledger[e] == if e in ledgerBackup && e !in todo then old(ledger)[e].(code := ledgerBackup[e]) else old(ledger)[e]
        decreases todo
      {
        var e := NextRow(todo);
        if e in ledger {
          ledger := ledger[e := ledger[e].(code := ledgerBackup[e])];
        }
        todo := todo - {e};
      }
      assert ledger == RestoredLedger(old(ledger), ledgerBackup);
      ok := UpdateRowByRow(keys, LedgerKeys(ledger));
    }

    /** UPDATE stocks SET qty = nb.qty_null_before, one joined row after the other: only rows without a code can change, and
        each that has a backup then holds the quantity it had before the upgrade. */
    method RestoreNulls()
      modifies this`stocks
      ensures stocks == RestoredNulls(old(stocks), nullBackup)
      ensures forall k :: k in old(stocks) && old(stocks)[k].code.Some? ==> k in stocks && stocks[k] == old(stocks)[k]
      ensures forall slot :: slot in nullBackup && NullKey(slot) in old(stocks) && old(stocks)[NullKey(slot)].code.None? ==>
        NullQty(stocks, slot) == nullBackup[slot]
    {
      var todo := stocks.Keys;
      while todo != {}
        invariant todo <= stocks.Keys == old(stocks).Keys
        invariant forall k :: k in stocks ==>
          stocks[k] == if k in todo then old(stocks)[k] else RestoredNulls(old(stocks), nullBackup)[k]
        decreases todo
      {
        var k := NextRow(todo);
        if stocks[k].code == None && k.slot in nullBackup {
          stocks := stocks[k := Stock(None, nullBackup[k.slot])];
        }
        todo := todo - {k};
      }
    }

    /** INSERT INTO stocks SELECT .. FROM backup ON CONFLICT DO UPDATE SET qty = EXCLUDED.qty: each key at most once. */
    method RestoreFakes() returns (ok: bool)
      modifies this`stocks
      ensures ok == !BackupClashes(stocksBackup)
      ensures ok ==> stocks == RestoredFakes(old(stocks), BackupRows(stocksBackup))
    {
      hide RestoredFakes;
      ghost var before := stocks;
      var written: Stocks := map[];
      NothingRestored(before);
      assert stocksBackup[..0] == [];
      for i := 0 to |stocksBackup|
        invariant written == BackupRows(stocksBackup[..i]) && !BackupClashes(stocksBackup[..i])
        invariant stocks == RestoredFakes(before, written)
      {
        hide BackupRows, BackupClashes;
        var batch := stocksBackup[i];
        OneMoreBackup(stocksBackup, i);
        if !(written.Keys !! batch.Keys) {
          RepeatedKeyClashes(stocksBackup, i);
          return false;
        }
        NewKeysDoNotClash(stocksBackup, i);
        OneMoreBatch(before, written, batch);
        stocks := map k | k in stocks.Keys + batch.Keys ::
          if k in batch then (if k in stocks then stocks[k].(qty := batch[k].qty) else batch[k]) else stocks[k];
        written := written + batch;
      }
      assert stocksBackup[..|stocksBackup|] == stocksBackup;
      return true;
    }
  }

  lemma {:induction false} BackupRowsAreItsBatches(backup: seq<Stocks>, k: Key)
    ensures k in BackupRows(backup) <==> exists i :: 0 <= i < |backup| && k in backup[i]
    decreases |backup|
  {
    if backup != [] {
      var last := |backup| - 1;
      BackupRowsAreItsBatches(backup[..last], k);
      if i :| 0 <= i < last && k in backup[..last][i] {
        assert k in backup[i];
      }
      if i :| 0 <= i < |backup| && k in backup[i] && i != last {
        assert k in backup[..last][i];
      }
    }
  }

  lemma OneMoreBackup(backup: seq<Stocks>, i: nat)
    requires i < |backup|
    ensures BackupRows(backup[..i + 1]) == BackupRows(backup[..i]) + backup[i]
  {
    assert backup[..i + 1][..i] == backup[..i];
  }

  lemma EarlierBatches(backup: seq<Stocks>, i: nat, k: Key)
    requires i < |backup|
    ensures k in BackupRows(backup[..i]) <==> exists j :: 0 <= j < i && k in backup[j]
  {
    BackupRowsAreItsBatches(backup[..i], k);
    if j :| 0 <= j < i && k in backup[j] {
      assert k in backup[..i][j];
    }
  }

  /** A batch whose keys are new brings no clash with it. */
  lemma NewKeysDoNotClash(backup: seq<Stocks>, i: nat)
    requires i < |backup| && !BackupClashes(backup[..i]) && BackupRows(backup[..i]).Keys !! backup[i].Keys
    ensures !BackupClashes(backup[..i + 1])
  {
    hide BackupRows;
    var more := backup[..i + 1];
    if a, b, k :| 0 <= a < b < |more| && k in more[a] && k in more[b] {
      EarlierBatches(backup, i, k);
      if b < i {
        assert k in backup[..i][a] && k in backup[..i][b];
      }
    }
  }

  /** A batch that names a key again makes the whole backup clash. */
  lemma RepeatedKeyClashes(backup: seq<Stocks>, i: nat)
    requires i < |backup| && !(BackupRows(backup[..i]).Keys !! backup[i].Keys)
    ensures BackupClashes(backup)
  {
    var k :| k in BackupRows(backup[..i]) && k in backup[i];
    hide BackupRows;
    EarlierBatches(backup, i, k);
  }

  lemma NothingRestored(stocks: Stocks)
    ensures RestoredFakes(stocks, map[]) == stocks
  {
  }

  lemma OneMoreBatch(stocks: Stocks, rows: Stocks, batch: Stocks)
    requires rows.Keys !! batch.Keys
    ensures var once := RestoredFakes(stocks, rows);
      RestoredFakes(stocks, rows + batch) == map k | k in once.Keys + batch.Keys ::
        if k in batch then (if k in once then once[k].(qty := batch[k].qty) else batch[k]) else once[k]
  {
  }

  /** The stock table once the sums of `slots` have been upserted and nothing has been deleted yet. */
  ghost function FoldedStocks(items: Items, stocks: Stocks, slots: set<Slot>): Stocks {
    map k | k in stocks.Keys + (set slot | slot in slots :: NullKey(slot)) ::
      if k.codeKey == SENTINEL && k.slot in slots then Upserted(stocks, k.slot, AddQty(items, stocks, k.slot)) else stocks[k]
  }

  lemma NothingFolded(items: Items, stocks: Stocks)
    ensures FoldedStocks(items, stocks, {}) == stocks
  {
  }

  lemma OneMoreSlotFolded(items: Items, stocks: Stocks, slots: set<Slot>, slot: Slot)
    requires slot !in slots
    ensures var folded, k := FoldedStocks(items, stocks, slots), NullKey(slot);
      && (k in folded <==> k in stocks) && (k in stocks ==> folded[k] == stocks[k])
      && FoldedStocks(items, stocks, slots + {slot}) == folded[k := Upserted(stocks, slot, AddQty(items, stocks, slot))]
  {
    hide AddQty, Upserted;
    var a, b := FoldedStocks(items, stocks, slots + {slot}), FoldedStocks(items, stocks, slots);
    forall k ensures k in a <==> k in b || k == NullKey(slot) {
      if k in a && k !in stocks {
        assert k == NullKey(k.slot);
      }
    }
    forall k: Key | k.codeKey == SENTINEL && k.slot == slot ensures k == NullKey(slot) {
    }
  }

  /** The columns that the aggregate reads: quantity and slot of every fake row. */
  function FakeQtyColumn(items: Items, stocks: Stocks): map<Key, int> {
    var fakes := FakeRows(items, stocks);
    map k | k in fakes :: fakes[k].qty
  }

  function FakeSlotColumn(items: Items, stocks: Stocks): map<Key, Slot> {
    map k | k in FakeRows(items, stocks) :: k.slot
  }

  lemma AggregateIsAddQty(items: Items, stocks: Stocks, agg: map<Slot, int>)
    requires var qtys, slots := FakeQtyColumn(items, stocks), FakeSlotColumn(items, stocks);
      agg.Keys == Groups(qtys, slots) && forall slot :: slot in agg ==> agg[slot] == Sum(Group(qtys, slots, slot))
    ensures agg.Keys == Affected(items, stocks)
    ensures forall slot :: slot in agg ==> agg[slot] == AddQty(items, stocks, slot)
  {
    hide Fake;
    var qtys, slots := FakeQtyColumn(items, stocks), FakeSlotColumn(items, stocks);
    forall slot | slot in agg ensures slot in Affected(items, stocks) {
      var k :| k in qtys && slots[k] == slot;
    }
    forall slot | slot in Affected(items, stocks) ensures slot in agg {
      var k :| k in FakeRows(items, stocks) && k.slot == slot;
      assert slots[k] == slot;
    }
    forall slot | slot in agg ensures agg[slot] == AddQty(items, stocks, slot) {
      assert Group(qtys, slots, slot) == FakeQtys(items, stocks, slot);
    }
  }

  /** Upserting the sums and then deleting the fake rows is the collapse. */
  lemma FoldThenDelete(items: Items, stocks: Stocks)
    requires forall k :: k in stocks ==> k.codeKey == CodeKey(stocks[k].code)
    ensures var folded := FoldedStocks(items, stocks, Affected(items, stocks));
      folded - FakeRows(items, folded).Keys == CollapsedStocks(items, stocks)
  {
    hide AddQty, Affected, Upserted;
    var folded := FoldedStocks(items, stocks, Affected(items, stocks));
    forall k | k in folded ensures k in FakeRows(items, folded) <==> k in FakeRows(items, stocks) {
      FoldedFake(items, stocks, k);
    }
    forall k ensures k in AffectedNullKeys(items, stocks) <==> ReceivesFakes(items, stocks, k) {
      ReceiversAreNullKeys(items, stocks, k);
    }
  }

  lemma FoldedFake(items: Items, stocks: Stocks, k: Key)
    requires forall j :: j in stocks ==> j.codeKey == CodeKey(stocks[j].code)
    requires k in FoldedStocks(items, stocks, Affected(items, stocks))
    ensures k in FakeRows(items, FoldedStocks(items, stocks, Affected(items, stocks))) <==> k in FakeRows(items, stocks)
  {
    hide AddQty, Affected;
    NullKeyIsNotFake(items, stocks, k.slot);
    assert k.codeKey == SENTINEL ==> k == NullKey(k.slot);
    assert !Fake(items, k.slot.item, None);
    hide Fake;
  }

  /** Erasing codes only moves entries onto keys that no erased entry holds. */
  lemma CollapseTargetsStay(items: Items, ledger: Ledger)
    ensures LedgerKeys(ledger).Keys == LedgerKeys(CollapsedLedger(items, ledger)).Keys
    ensures TargetsStay(LedgerKeys(ledger), LedgerKeys(CollapsedLedger(items, ledger)))
  {
    hide Fake;
    forall e | e in FakeEntries(items, ledger) ensures CodeKey(ledger[e].code) != SENTINEL {
      FakeIsNotSentinel(items, ledger[e].item, ledger[e].code);
    }
  }
}
