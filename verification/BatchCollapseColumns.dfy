/** The collapse of fake codes on the raw columns: which rows and entries it takes, what becomes of every other one, what the
    backups hold, and what a downgrade writes back. */
module BatchCollapseColumns {
  import opened Sql
  import opened MapSums
  import opened UniqueKeys
  import opened BatchCollapse

  /** One of the five codes, in any case. */
  predicate SpellsFake(code: string) {
    SameUpToCase(code, "noexp") || SameUpToCase(code, "near") || SameUpToCase(code, "far") || SameUpToCase(code, "idem") ||
    SameUpToCase(code, "none")
  }

  /** The item is known, and its has_shelf_life is null or FALSE. */
  predicate NoShelfLife(items: Items, item: Id) {
    item in items && (items[item] == None || items[item] == Some(false))
  }

  /** A code that the collapse erases. */
  predicate Erased(items: Items, item: Id, code: Option<string>) {
    NoShelfLife(items, item) && code.Some? && SpellsFake(code.value)
  }

  lemma SpellsExactly(code: string, fake: string)
    requires Lower(fake) == fake
    ensures Lower(code) == fake <==> SameUpToCase(code, fake)
  {
    CaseFolding(code, fake);
  }

  lemma InFakeCodes(s: string)
    ensures s in FAKE_CODES <==> s == "noexp" || s == "near" || s == "far" || s == "idem" || s == "none"
  {
    assert FAKE_CODES[0] == "noexp" && FAKE_CODES[1] == "near" && FAKE_CODES[2] == "far" && FAKE_CODES[3] == "idem" &&
           FAKE_CODES[4] == "none";
  }

  lemma SpellsFakeExactly(code: string)
    ensures Lower(code) in FAKE_CODES <==> SpellsFake(code)
  {
    assert Lower("noexp") == "noexp" && Lower("near") == "near" && Lower("far") == "far" && Lower("idem") == "idem" &&
           Lower("none") == "none";
    SpellsExactly(code, "noexp");
    SpellsExactly(code, "near");
    SpellsExactly(code, "far");
    SpellsExactly(code, "idem");
    SpellsExactly(code, "none");
    hide Lower, SameUpToCase;
    InFakeCodes(Lower(code));
  }

  lemma FakeIsErased(items: Items, item: Id, code: Option<string>)
    ensures Fake(items, item, code) <==> Erased(items, item, code)
  {
    hide Lower, SpellsFake;
    if item in items && items[item].Some? {
      assert items[item] == if items[item].value then Some(true) else Some(false);
    }
    if code.Some? {
      SpellsFakeExactly(code.value);
    }
  }

  /** The stock rows of a warehouse and item that the collapse takes, and their quantities. */
  function ErasedRows(items: Items, stocks: Stocks, slot: Slot): map<Key, int> {
    map k | k in stocks && k.slot == slot && Erased(items, k.slot.item, stocks[k].code) :: stocks[k].qty
  }

  lemma ErasedRowsAreFakeQtys(items: Items, stocks: Stocks, slot: Slot)
    ensures FakeQtys(items, stocks, slot) == ErasedRows(items, stocks, slot)
    ensures slot in Affected(items, stocks) <==> ErasedRows(items, stocks, slot).Keys != {}
  {
    forall k | k in stocks ensures Fake(items, k.slot.item, stocks[k].code) <==> Erased(items, k.slot.item, stocks[k].code) {
      FakeIsErased(items, k.slot.item, stocks[k].code);
    }
    hide Fake, Erased;
    if k :| k in FakeRows(items, stocks) && k.slot == slot {
      assert k in ErasedRows(items, stocks, slot);
    }
  }

  /** What the upgrade does to each key of `stocks`. An erased row goes. The slot without a code, named by the sentinel, receives
      the sum of the erased rows of its warehouse and item if there are any, keeps the code it had, and is created if it
      was not there. Every other key is left alone. */
  lemma StockAfterUpgrade(t: Tables, k: Key)
    requires SchemaHolds(t) && Upgrade(t).Done?
    ensures var stocks' := Upgrade(t).state.stocks; var erased := ErasedRows(t.items, t.stocks, k.slot);
      if k in t.stocks && Erased(t.items, k.slot.item, t.stocks[k].code) then k !in stocks'
      else if k.codeKey == "__NULL_BATCH__" && erased.Keys != {} then
        && k in stocks'
        && stocks'[k].code == (if k in t.stocks then t.stocks[k].code else None)
        && stocks'[k].qty == (if k in t.stocks then t.stocks[k].qty else 0) + Sum(erased)
      else (k in stocks' <==> k in t.stocks) && (k in t.stocks ==> stocks'[k] == t.stocks[k])
  {
    hide Fake, Erased, Sum, Affected, AffectedNullKeys, ErasedRows, FakeQtys, SumsFit;
    ErasedRowsAreFakeQtys(t.items, t.stocks, k.slot);
    ReceiversAreNullKeys(t.items, t.stocks, k);
    if k in t.stocks {
      FakeIsErased(t.items, k.slot.item, t.stocks[k].code);
    }
    assert k.codeKey == SENTINEL ==> k == NullKey(k.slot);
  }

  /** What the upgrade does to each ledger entry: an erased code goes, and nothing else changes. */
  lemma LedgerAfterUpgrade(t: Tables, e: Id)
    requires Upgrade(t).Done?
    ensures var ledger' := Upgrade(t).state.ledger;
      && (e in ledger' <==> e in t.ledger)
      && (e in t.ledger ==>
            ledger'[e] == if Erased(t.items, t.ledger[e].item, t.ledger[e].code) then t.ledger[e].(code := None) else t.ledger[e])
  {
    hide Fake, Erased, SumsFit;
    if e in t.ledger {
      FakeIsErased(t.items, t.ledger[e].item, t.ledger[e].code);
    }
  }

  lemma HasShelfLife(items: Items, item: Id)
    ensures !NoShelfLife(items, item) <==> item !in items || items[item] == Some(true)
  {
    if item in items && items[item].Some? {
      assert items[item] == if items[item].value then Some(true) else Some(false);
    }
  }

  /** Items with shelf life, and items that are not known, are left alone altogether. */
  lemma ShelfLifeUntouched(t: Tables, k: Key, e: Id)
    requires SchemaHolds(t) && Upgrade(t).Done?
    ensures k.slot.item !in t.items || t.items[k.slot.item] == Some(true) ==>
      var stocks' := Upgrade(t).state.stocks;
      (k in stocks' <==> k in t.stocks) && (k in t.stocks ==> stocks'[k] == t.stocks[k])
    ensures e in t.ledger && (t.ledger[e].item !in t.items || t.items[t.ledger[e].item] == Some(true)) ==>
      e in Upgrade(t).state.ledger && Upgrade(t).state.ledger[e] == t.ledger[e]
  {
    StockAfterUpgrade(t, k);
    LedgerAfterUpgrade(t, e);
    hide Upgrade, SpellsFake, Sum;
    if k.slot.item !in t.items || t.items[k.slot.item] == Some(true) {
      assert ErasedRows(t.items, t.stocks, k.slot).Keys == {};
    }
  }

  /** The same over all rows and entries. */
  lemma UpgradeOnColumns(t: Tables)
    requires SchemaHolds(t) && Upgrade(t).Done?
    ensures var t' := Upgrade(t).state;
      && (forall k :: k in t.stocks && Erased(t.items, k.slot.item, t.stocks[k].code) ==> k !in t'.stocks)
      && (forall k :: k in t.stocks && !NoShelfLife(t.items, k.slot.item) ==> k in t'.stocks && t'.stocks[k] == t.stocks[k])
      && (forall e :: e in t.ledger ==>
            && e in t'.ledger
            && t'.ledger[e] == if Erased(t.items, t.ledger[e].item, t.ledger[e].code) then t.ledger[e].(code := None)
                               else t.ledger[e])
  {
    var t' := Upgrade(t).state;
    hide Upgrade, SchemaHolds, Erased, NoShelfLife, ErasedRows, Sum;
    forall k | k in t.stocks && Erased(t.items, k.slot.item, t.stocks[k].code) ensures k !in t'.stocks {
      StockAfterUpgrade(t, k);
    }
    forall k | k in t.stocks && !NoShelfLife(t.items, k.slot.item) ensures k in t'.stocks && t'.stocks[k] == t.stocks[k] {
      HasShelfLife(t.items, k.slot.item);
      ShelfLifeUntouched(t, k, 0);
    }
    forall e | e in t.ledger ensures
      && e in t'.ledger
      && t'.ledger[e] == if Erased(t.items, t.ledger[e].item, t.ledger[e].code) then t.ledger[e].(code := None) else t.ledger[e]
    {
      LedgerAfterUpgrade(t, e);
    }
  }

  /** Every one of the five codes, in any case, is gone from items without shelf life. */
  lemma ErasedCodesAreGone(t: Tables)
    requires SchemaHolds(t) && Upgrade(t).Done?
    ensures var t' := Upgrade(t).state;
      && (forall k :: k in t'.stocks ==> !Erased(t.items, k.slot.item, t'.stocks[k].code))
      && (forall e :: e in t'.ledger ==> !Erased(t.items, t'.ledger[e].item, t'.ledger[e].code))
  {
    CollapseLeavesNoFake(t);
    var t' := Upgrade(t).state;
    hide Upgrade, Fake, Erased;
    forall k | k in t'.stocks ensures !Erased(t.items, k.slot.item, t'.stocks[k].code) {
      assert k !in FakeRows(t.items, t'.stocks);
      FakeIsErased(t.items, k.slot.item, t'.stocks[k].code);
    }
    forall e | e in t'.ledger ensures !Erased(t.items, t'.ledger[e].item, t'.ledger[e].code) {
      assert e !in FakeEntries(t.items, t'.ledger);
      FakeIsErased(t.items, t'.ledger[e].item, t'.ledger[e].code);
    }
  }

  /** What the backups hold after an upgrade: one more batch with exactly the erased rows; for each warehouse and item with erased
      rows the quantity without a code, and for each erased entry its code, unless an older backup has one. */
  lemma BackupsAfterUpgrade(t: Tables, k: Key, slot: Slot, e: Id)
    requires Upgrade(t).Done?
    ensures var t' := Upgrade(t).state;
      && |t'.stocksBackup| == |t.stocksBackup| + 1 && t'.stocksBackup[..|t.stocksBackup|] == t.stocksBackup
      && (k in t'.stocksBackup[|t.stocksBackup|] <==> k in t.stocks && Erased(t.items, k.slot.item, t.stocks[k].code))
      && (k in t'.stocksBackup[|t.stocksBackup|] ==> t'.stocksBackup[|t.stocksBackup|][k] == t.stocks[k])
      && (slot in t'.nullBackup <==> slot in t.nullBackup || ErasedRows(t.items, t.stocks, slot).Keys != {})
      && (slot in t.nullBackup ==> t'.nullBackup[slot] == t.nullBackup[slot])
      && (slot in t'.nullBackup && slot !in t.nullBackup ==> t'.nullBackup[slot] == NullQty(t.stocks, slot))
      && (e in t'.ledgerBackup <==>
            e in t.ledgerBackup || (e in t.ledger && Erased(t.items, t.ledger[e].item, t.ledger[e].code)))
      && (e in t.ledgerBackup ==> t'.ledgerBackup[e] == t.ledgerBackup[e])
      && (e in t'.ledgerBackup && e !in t.ledgerBackup ==> t'.ledgerBackup[e] == t.ledger[e].code)
  {
    hide Fake, Erased, SumsFit, Affected, ErasedRows, NullQty, CollapsedStocks, CollapsedLedger;
    ErasedRowsAreFakeQtys(t.items, t.stocks, slot);
    if k in t.stocks {
      FakeIsErased(t.items, k.slot.item, t.stocks[k].code);
    }
    if e in t.ledger {
      FakeIsErased(t.items, t.ledger[e].item, t.ledger[e].code);
    }
  }

  /** The quantity without a code that is saved: that of the row whose code is null, or 0. */
  lemma NullQtyOnColumns(stocks: Stocks, slot: Slot)
    requires forall k :: k in stocks ==> k.codeKey == CodeKey(stocks[k].code)
    ensures forall k :: k in stocks && k.slot == slot && stocks[k].code == None ==> NullQty(stocks, slot) == stocks[k].qty
    ensures (forall k :: k in stocks && k.slot == slot ==> stocks[k].code != None) ==> NullQty(stocks, slot) == 0
  {
    forall k | k in stocks && k.slot == slot && stocks[k].code == None ensures k == NullKey(slot) {
    }
  }

  /** Two entries that cannot both lose their codes. */
  lemma CollideOnColumns(items: Items, ledger: Ledger, a: Id, b: Id)
    ensures Collide(items, ledger, a, b) <==>
      && a in ledger && b in ledger && a != b && Erased(items, ledger[a].item, ledger[a].code)
      && ledger[a].reason == ledger[b].reason && ledger[a].ref == ledger[b].ref && ledger[a].refLine == ledger[b].refLine
      && ledger[a].item == ledger[b].item && ledger[a].warehouse == ledger[b].warehouse
      && (|| Erased(items, ledger[b].item, ledger[b].code)
          || ledger[b].code == None || ledger[b].code == Some("__NULL_BATCH__"))
  {
    if a in ledger && b in ledger {
      FakeIsErased(items, ledger[a].item, ledger[a].code);
      FakeIsErased(items, ledger[b].item, ledger[b].code);
    }
    hide Fake, Erased;
  }

  /** The sum of the erased rows of a slot fits INTEGER, by itself and added to the slot that receives it. */
  ghost predicate SumFits(items: Items, stocks: Stocks, slot: Slot) {
    var add, k := Sum(ErasedRows(items, stocks, slot)), Key(slot, "__NULL_BATCH__");
    FitsInteger(add) && FitsInteger((if k in stocks then stocks[k].qty else 0) + add)
  }

  lemma SumsFitOnColumns(items: Items, stocks: Stocks)
    ensures SumsFit(items, stocks) <==>
      forall slot :: ErasedRows(items, stocks, slot).Keys != {} ==> SumFits(items, stocks, slot)
  {
    forall slot ensures
      && (slot in Affected(items, stocks) <==> ErasedRows(items, stocks, slot).Keys != {})
      && (SumFits(items, stocks, slot) <==>
            FitsInteger(AddQty(items, stocks, slot)) && FitsInteger(Upserted(stocks, slot, AddQty(items, stocks, slot)).qty))
    {
      hide Affected, ErasedRows, FakeQtys;
      ErasedRowsAreFakeQtys(items, stocks, slot);
    }
    hide Affected, ErasedRows, AddQty, Upserted, SumFits;
  }

  /** The upgrade fails exactly on a colliding pair of entries or on a sum that does not fit. */
  lemma UpgradeFailsOnColumns(t: Tables)
    requires SchemaHolds(t)
    ensures Upgrade(t).Done? <==>
      && (forall a, b :: !Collide(t.items, t.ledger, a, b))
      && (forall slot :: ErasedRows(t.items, t.stocks, slot).Keys != {} ==> SumFits(t.items, t.stocks, slot))
  {
    hide Upgrade, Collide, SumsFit, ErasedRows, SumFits, SchemaHolds;
    UpgradeSucceedsExactly(t);
    SumsFitOnColumns(t.items, t.stocks);
  }

  /** What a downgrade writes, from any state: the codes and quantities that the backups hold, and nothing else. */
  lemma AfterDowngrade(t: Tables, k: Key, e: Id)
    requires Downgrade(t).Done?
    ensures var t' := Downgrade(t).state;
      && t'.items == t.items && t'.stocksBackup == t.stocksBackup && t'.nullBackup == t.nullBackup
      && t'.ledgerBackup == t.ledgerBackup && t'.ledger.Keys == t.ledger.Keys
      && (e in t.ledger ==>
            t'.ledger[e] == if e in t.ledgerBackup then t.ledger[e].(code := t.ledgerBackup[e]) else t.ledger[e])
      && (k in t'.stocks <==> k in t.stocks || exists i :: 0 <= i < |t.stocksBackup| && k in t.stocksBackup[i])
      && (forall i :: 0 <= i < |t.stocksBackup| && k in t.stocksBackup[i] ==>
            t'.stocks[k] == if k in t.stocks then t.stocks[k].(qty := t.stocksBackup[i][k].qty) else t.stocksBackup[i][k])
      && (k in t.stocks && (forall i :: 0 <= i < |t.stocksBackup| ==> k !in t.stocksBackup[i]) ==>
            t'.stocks[k] == if t.stocks[k].code == None && k.slot in t.nullBackup
                            then t.stocks[k].(qty := t.nullBackup[k.slot]) else t.stocks[k])
  {
    BackupRowAt(t.stocksBackup, k);
    hide BackupRows, BackupClashes;
  }

  lemma {:induction false} BackupRowAt(backup: seq<Stocks>, k: Key)
    requires !BackupClashes(backup)
    ensures k in BackupRows(backup) <==> exists i :: 0 <= i < |backup| && k in backup[i]
    ensures forall i :: 0 <= i < |backup| && k in backup[i] ==> BackupRows(backup)[k] == backup[i][k]
    decreases |backup|
  {
    if backup != [] {
      var last := |backup| - 1;
      var init := backup[..last];
      assert !BackupClashes(init) by {
        if i, j, x :| 0 <= i < j < |init| && x in init[i] && x in init[j] {
          assert x in backup[i] && x in backup[j];
        }
      }
      BackupRowAt(init, k);
      if i :| 0 <= i < last && k in init[i] {
        assert k in backup[i];
      }
      forall i | 0 <= i < |backup| && k in backup[i]
        ensures k in BackupRows(backup) && BackupRows(backup)[k] == backup[i][k]
      {
        if i < last {
          assert k in init[i] && k !in backup[last];
        }
      }
    }
  }

  /** When a downgrade aborts: two batches of the backup share a key, or two restored entries share one. */
  lemma DowngradeFailsOnColumns(t: Tables)
    ensures Downgrade(t).Done? <==>
      && (forall i, j, k :: 0 <= i < j < |t.stocksBackup| && k in t.stocksBackup[i] ==> k !in t.stocksBackup[j])
      && (var ledger' := RestoredLedger(t.ledger, t.ledgerBackup);
          forall a, b :: a in ledger' && b in ledger' && a != b ==> var x, y := ledger'[a], ledger'[b];
            !(x.reason == y.reason && x.ref == y.ref && x.refLine == y.refLine && x.item == y.item &&
              x.warehouse == y.warehouse && x.code.GetOr("__NULL_BATCH__") == y.code.GetOr("__NULL_BATCH__")))
  {
    var ledger' := RestoredLedger(t.ledger, t.ledgerBackup);
    assert Unique(LedgerKeys(ledger')) <==> forall a, b :: a in ledger' && b in ledger' && a != b ==>
      LedgerKeys(ledger')[a] != LedgerKeys(ledger')[b];
    hide Unique, RestoredLedger, RestoredNulls, RestoredFakes, BackupRows;
  }
}
