/** Collapsing fake batch codes: on items without shelf life, stock kept under codes such as NOEXP or near is
    summed into the slot without a batch, and the same codes are erased from the ledger. Backup tables make the
    change reversible. */
module BatchCollapse {
  import opened Sql
  import opened MapSums
  import opened UniqueKeys

  type Id = nat

  const SENTINEL := "__NULL_BATCH__"
  const FAKE_CODES := ["noexp", "near", "far", "idem", "none"]

  datatype Slot = Slot(warehouse: Id, item: Id)

  /** The unique key of `stocks`, with batch_code_key = COALESCE(batch_code, SENTINEL). */
  datatype Key = Key(slot: Slot, codeKey: string)
  datatype Stock = Stock(code: Option<string>, qty: int)
  datatype Entry = Entry(warehouse: Id, item: Id, code: Option<string>, reason: string, ref: string, refLine: int)

  type Stocks = map<Key, Stock>
  type Ledger = map<Id, Entry>
  type Items = map<Id, Option<bool>>

  /** `stocksBackup` holds one batch of rows per upgrade: that table has no key, so batches pile up. */
  datatype Tables = Tables(items: Items, stocks: Stocks, ledger: Ledger,
                           stocksBackup: seq<Stocks>, nullBackup: map<Slot, int>, ledgerBackup: map<Id, Option<string>>)

  function CodeKey(code: Option<string>): string {
    code.GetOr(SENTINEL)
  }

  function NullKey(slot: Slot): Key {
    Key(slot, SENTINEL)
  }

  function EntryKey(e: Entry): (string, string, int, Id, string, Id) {
    (e.reason, e.ref, e.refLine, e.item, CodeKey(e.code), e.warehouse)
  }

  function LedgerKeys(ledger: Ledger): map<Id, (string, string, int, Id, string, Id)> {
    map e | e in ledger :: EntryKey(ledger[e])
  }

  /** Generated columns and unique keys of the two fact tables. */
  ghost predicate SchemaHolds(t: Tables) {
    && (forall k :: k in t.stocks ==> k.codeKey == CodeKey(t.stocks[k].code))
    && (forall k :: k in t.stocks ==> FitsInteger(t.stocks[k].qty))
    && Unique(LedgerKeys(t.ledger))
  }

  /** A fake code, on an item whose has_shelf_life IS NOT TRUE. */
  predicate Fake(items: Items, item: Id, code: Option<string>) {
    item in items && items[item] != Some(true) && code.Some? && Lower(code.value) in FAKE_CODES
  }

  function FakeRows(items: Items, stocks: Stocks): Stocks {
    map k | k in stocks && Fake(items, k.slot.item, stocks[k].code) :: stocks[k]
  }

  function FakeEntries(items: Items, ledger: Ledger): Ledger {
    map e | e in ledger && Fake(items, ledger[e].item, ledger[e].code) :: ledger[e]
  }

  /** SELECT DISTINCT warehouse_id, item_id over the fake rows. */
  function Affected(items: Items, stocks: Stocks): set<Slot> {
    set k | k in FakeRows(items, stocks) :: k.slot
  }

  /** SUM(qty) of the fake rows of a slot. */
  function FakeQtys(items: Items, stocks: Stocks, slot: Slot): map<Key, int> {
    map k | k in FakeRows(items, stocks) && k.slot == slot :: stocks[k].qty
  }

  ghost function AddQty(items: Items, stocks: Stocks, slot: Slot): int {
    Sum(FakeQtys(items, stocks, slot))
  }

  // ---------------------------------------------------------------- upgrade

  /** LEFT JOIN on batch_code IS NULL, then COALESCE(n.qty, 0). */
  function NullQty(stocks: Stocks, slot: Slot): int {
    if NullKey(slot) in stocks && stocks[NullKey(slot)].code.None? then stocks[NullKey(slot)].qty else 0
  }

  /** What the upgrade saves: ON CONFLICT DO NOTHING keeps an older backup of the same slot or entry. */
  function NullQtys(items: Items, stocks: Stocks): map<Slot, int> {
    map slot | slot in Affected(items, stocks) :: NullQty(stocks, slot)
  }

  function FakeCodes(items: Items, ledger: Ledger): map<Id, Option<string>> {
    map e | e in FakeEntries(items, ledger) :: ledger[e].code
  }

  /** The NULL-slot row after INSERT .. ON CONFLICT DO UPDATE SET qty = stocks.qty + EXCLUDED.qty. The conflict is on
      the key, so a row that spells the sentinel as its code is hit as well. */
  function Upserted(stocks: Stocks, slot: Slot, add: int): Stock {
    if NullKey(slot) in stocks then stocks[NullKey(slot)].(qty := stocks[NullKey(slot)].qty + add)
    else Stock(None, add)
  }

  ghost predicate SumsFit(items: Items, stocks: Stocks) {
    forall slot :: slot in Affected(items, stocks) ==>
      && FitsInteger(AddQty(items, stocks, slot))
      && FitsInteger(Upserted(stocks, slot, AddQty(items, stocks, slot)).qty)
  }

  function AffectedNullKeys(items: Items, stocks: Stocks): set<Key> {
    set slot | slot in Affected(items, stocks) :: NullKey(slot)
  }

  ghost function CollapsedStocks(items: Items, stocks: Stocks): Stocks {
    map k | k in stocks.Keys + AffectedNullKeys(items, stocks) && k !in FakeRows(items, stocks) ::
      if k in AffectedNullKeys(items, stocks) then Upserted(stocks, k.slot, AddQty(items, stocks, k.slot)) else stocks[k]
  }

  function CollapsedLedger(items: Items, ledger: Ledger): Ledger {
    map e | e in ledger :: if e in FakeEntries(items, ledger) then ledger[e].(code := None) else ledger[e]
  }

  ghost function Upgrade(t: Tables): Outcome<Tables> {
    var ledger' := CollapsedLedger(t.items, t.ledger);
    if !SumsFit(t.items, t.stocks) then Aborted
    else if !Unique(LedgerKeys(ledger')) then Aborted
    else
      Done(Tables(t.items, CollapsedStocks(t.items, t.stocks), ledger',
                  t.stocksBackup + [FakeRows(t.items, t.stocks)],
                  NullQtys(t.items, t.stocks) + t.nullBackup, FakeCodes(t.items, t.ledger) + t.ledgerBackup))
  }

  /** Two entries of one document line and item that only an erased code told apart: one has a fake code, the other a fake
      code as well, or none. */
  ghost predicate Collide(items: Items, ledger: Ledger, a: Id, b: Id) {
    && a in FakeEntries(items, ledger) && b in ledger && a != b
    && EntryKey(ledger[a].(code := None)) == EntryKey(ledger[b].(code := None))
    && (b in FakeEntries(items, ledger) || CodeKey(ledger[b].code) == SENTINEL)
  }

  ghost predicate LedgerClash(items: Items, ledger: Ledger) {
    exists a, b :: Collide(items, ledger, a, b)
  }

  /** The key of an entry before and after its code is erased. */
  lemma CollapsedKey(items: Items, ledger: Ledger, e: Id)
    requires e in ledger
    ensures var before, after, erased :=
        LedgerKeys(ledger)[e], LedgerKeys(CollapsedLedger(items, ledger))[e], EntryKey(ledger[e].(code := None));
      && before.4 == CodeKey(ledger[e].code) && erased == (before.0, before.1, before.2, before.3, SENTINEL, before.5)
      && after == if e in FakeEntries(items, ledger) then erased else before
  {
    hide Fake;
  }

  /** When an erased code makes two keys equal. */
  lemma ErasedKeysMeet(items: Items, ledger: Ledger, a: Id, b: Id)
    requires a in FakeEntries(items, ledger) && a in ledger && b in ledger && a != b
    ensures var after := LedgerKeys(CollapsedLedger(items, ledger));
      a in after && b in after && (after[a] == after[b] <==> Collide(items, ledger, a, b))
  {
    CollapsedKey(items, ledger, a);
    CollapsedKey(items, ledger, b);
    hide FakeEntries, CollapsedLedger;
  }

  lemma OtherKeysStay(items: Items, ledger: Ledger)
    ensures var before, after := LedgerKeys(ledger), LedgerKeys(CollapsedLedger(items, ledger));
      && before.Keys == ledger.Keys == after.Keys && FakeEntries(items, ledger).Keys <= ledger.Keys
      && forall e :: e in before && e !in FakeEntries(items, ledger).Keys ==> after[e] == before[e]
  {
    hide Fake, EntryKey;
  }

  /** Exactly which ledgers cannot take the erased codes. */
  lemma LedgerCollapsesExactly(items: Items, ledger: Ledger)
    requires Unique(LedgerKeys(ledger))
    ensures Unique(LedgerKeys(CollapsedLedger(items, ledger))) <==> !LedgerClash(items, ledger)
  {
    hide Unique, LedgerKeys, FakeEntries, CollapsedLedger;
    var before, after, fakes := LedgerKeys(ledger), LedgerKeys(CollapsedLedger(items, ledger)), FakeEntries(items, ledger);
    OtherKeysStay(items, ledger);
    OnlyMovedRowsCollide(before, after, fakes.Keys);
    forall a, b | a in fakes && b in ledger && a != b ensures after[a] == after[b] <==> Collide(items, ledger, a, b) {
      ErasedKeysMeet(items, ledger, a, b);
    }
    assert forall a, b :: Collide(items, ledger, a, b) ==> a in fakes && b in ledger && a != b;
    hide Collide;
  }

  /** Exactly when the upgrade goes through. */
  lemma UpgradeSucceedsExactly(t: Tables)
    requires SchemaHolds(t)
    ensures Upgrade(t).Done? <==> SumsFit(t.items, t.stocks) && !LedgerClash(t.items, t.ledger)
  {
    hide SumsFit, LedgerClash, CollapsedStocks, CollapsedLedger, FakeRows, FakeCodes, NullQtys;
    LedgerCollapsesExactly(t.items, t.ledger);
  }

  // ---------------------------------------------------------------- downgrade

  function RestoredLedger(ledger: Ledger, backup: map<Id, Option<string>>): Ledger {
    map e | e in ledger :: if e in backup then ledger[e].(code := backup[e]) else ledger[e]
  }

  function RestoredNulls(stocks: Stocks, backup: map<Slot, int>): Stocks {
    map k | k in stocks ::
      if k.slot in backup && stocks[k].code.None? then stocks[k].(qty := backup[k.slot]) else stocks[k]
  }

  /** INSERT .. SELECT .. ON CONFLICT DO UPDATE fails when two backup rows have the same key. */
  ghost predicate BackupClashes(backup: seq<Stocks>) {
    exists i, j, k :: 0 <= i < j < |backup| && k in backup[i] && k in backup[j]
  }

  /** All rows of the keyless backup table. */
  function BackupRows(backup: seq<Stocks>): Stocks {
    if backup == [] then map[] else BackupRows(backup[..|backup| - 1]) + backup[|backup| - 1]
  }

  function RestoredFakes(stocks: Stocks, rows: Stocks): Stocks {
    map k | k in stocks.Keys + rows.Keys ::
      if k in rows then (if k in stocks then stocks[k].(qty := rows[k].qty) else rows[k]) else stocks[k]
  }

  ghost function Downgrade(t: Tables): Outcome<Tables> {
    var ledger' := RestoredLedger(t.ledger, t.ledgerBackup);
    if !Unique(LedgerKeys(ledger')) then Aborted
    else if BackupClashes(t.stocksBackup) then Aborted
    else Done(t.(ledger := ledger',
                 stocks := RestoredFakes(RestoredNulls(t.stocks, t.nullBackup), BackupRows(t.stocksBackup))))
  }

  // ---------------------------------------------------------------- conservation

  function QtysOf(stocks: Stocks, slot: Slot): map<Key, int> {
    map k | k in stocks && k.slot == slot :: stocks[k].qty
  }

  ghost function Total(stocks: Stocks, slot: Slot): int {
    Sum(QtysOf(stocks, slot))
  }

  lemma NullKeyIsNotFake(items: Items, stocks: Stocks, slot: Slot)
    requires forall k :: k in stocks ==> k.codeKey == CodeKey(stocks[k].code)
    ensures NullKey(slot) !in FakeRows(items, stocks)
  {
    if NullKey(slot) in stocks && stocks[NullKey(slot)].code.Some? {
      assert Lower(SENTINEL)[0] == '_';
      assert forall i :: 0 <= i < |FAKE_CODES| ==> FAKE_CODES[i][0] != '_';
    }
  }

  lemma FakeIsNotSentinel(items: Items, item: Id, code: Option<string>)
    requires Fake(items, item, code)
    ensures CodeKey(code) != SENTINEL
  {
    if code.value == SENTINEL {
      NullKeyIsNotFake(items, map[Key(Slot(0, item), SENTINEL) := Stock(code, 0)], Slot(0, item));
    }
  }

  /** The upgrade keeps the total quantity of every warehouse and item. */
  lemma CollapseConserves(t: Tables, slot: Slot)
    requires SchemaHolds(t)
    ensures Total(CollapsedStocks(t.items, t.stocks), slot) == Total(t.stocks, slot)
  {
    hide QtysOf, FakeQtys, Affected, CollapsedStocks;
    if slot in Affected(t.items, t.stocks) {
      CollapsedQtys(t, slot);
      FakeQtysArePart(t.items, t.stocks, slot);
      SumFold(QtysOf(t.stocks, slot), FakeQtys(t.items, t.stocks, slot), NullKey(slot));
    } else {
      UnaffectedQtys(t, slot);
    }
  }

  lemma FakeQtysArePart(items: Items, stocks: Stocks, slot: Slot)
    requires forall k :: k in stocks ==> k.codeKey == CodeKey(stocks[k].code)
    ensures var part, all := FakeQtys(items, stocks, slot), QtysOf(stocks, slot);
      (forall k :: k in part ==> k in all && all[k] == part[k]) && NullKey(slot) !in part
    ensures NullKey(slot) in QtysOf(stocks, slot) <==> NullKey(slot) in stocks
    ensures NullKey(slot) in stocks ==> QtysOf(stocks, slot)[NullKey(slot)] == stocks[NullKey(slot)].qty
  {
    hide Fake;
    NullKeyIsNotFake(items, stocks, slot);
  }

  lemma UnaffectedQtys(t: Tables, slot: Slot)
    requires slot !in Affected(t.items, t.stocks)
    ensures QtysOf(CollapsedStocks(t.items, t.stocks), slot) == QtysOf(t.stocks, slot)
  {
    hide Fake;
    assert forall k :: k in FakeRows(t.items, t.stocks) ==> k.slot != slot;
    assert NullKey(slot) !in AffectedNullKeys(t.items, t.stocks);
  }

  lemma CollapsedQtys(t: Tables, slot: Slot)
    requires SchemaHolds(t) && slot in Affected(t.items, t.stocks)
    ensures QtysOf(CollapsedStocks(t.items, t.stocks), slot) ==
      (QtysOf(t.stocks, slot) - FakeQtys(t.items, t.stocks, slot).Keys)
        [NullKey(slot) := Upserted(t.stocks, slot, AddQty(t.items, t.stocks, slot)).qty]
  {
    NullKeyIsNotFake(t.items, t.stocks, slot);
    assert NullKey(slot) in AffectedNullKeys(t.items, t.stocks);
    forall k | k in AffectedNullKeys(t.items, t.stocks) && k.slot == slot ensures k == NullKey(slot) {
    }
  }

  lemma CollapsedRowNotFake(t: Tables, k: Key)
    requires SchemaHolds(t) && SumsFit(t.items, t.stocks) && k in CollapsedStocks(t.items, t.stocks)
    ensures var row := CollapsedStocks(t.items, t.stocks)[k];
      k.codeKey == CodeKey(row.code) && !Fake(t.items, k.slot.item, row.code) && FitsInteger(row.qty)
  {
    hide AddQty;
    NullKeyIsNotFake(t.items, t.stocks, k.slot);
  }

  lemma CollapsedStocksHaveNoFake(t: Tables)
    requires SchemaHolds(t) && SumsFit(t.items, t.stocks)
    ensures var stocks' := CollapsedStocks(t.items, t.stocks);
      && FakeRows(t.items, stocks') == map[]
      && forall k :: k in stocks' ==> k.codeKey == CodeKey(stocks'[k].code) && FitsInteger(stocks'[k].qty)
  {
    hide Fake, CollapsedStocks;
    var stocks' := CollapsedStocks(t.items, t.stocks);
    forall k | k in stocks' ensures
      k.codeKey == CodeKey(stocks'[k].code) && !Fake(t.items, k.slot.item, stocks'[k].code) && FitsInteger(stocks'[k].qty)
    {
      CollapsedRowNotFake(t, k);
    }
  }

  lemma CollapsedLedgerHasNoFake(items: Items, ledger: Ledger)
    ensures FakeEntries(items, CollapsedLedger(items, ledger)) == map[]
  {
    var ledger' := CollapsedLedger(items, ledger);
    forall e | e in ledger' ensures !Fake(items, ledger'[e].item, ledger'[e].code) {
    }
  }

  /** No fake code is left in either table, and the keys stay consistent. */
  lemma CollapseLeavesNoFake(t: Tables)
    requires SchemaHolds(t) && Upgrade(t).Done?
    ensures var t' := Upgrade(t).state;
      SchemaHolds(t') && FakeRows(t.items, t'.stocks) == map[] && FakeEntries(t.items, t'.ledger) == map[]
  {
    hide CollapsedStocks, CollapsedLedger, FakeRows, FakeEntries, NullQtys, FakeCodes, SumsFit, Unique, LedgerKeys;
    CollapsedStocksHaveNoFake(t);
    CollapsedLedgerHasNoFake(t.items, t.ledger);
  }

  /** Rows that are neither fake nor the NULL slot of an affected item stay as they were. */
  lemma CollapseTouchesNothingElse(t: Tables, k: Key, e: Id)
    requires SchemaHolds(t) && Upgrade(t).Done?
    ensures var t' := Upgrade(t).state;
      && (k !in FakeRows(t.items, t.stocks) && k !in AffectedNullKeys(t.items, t.stocks) ==>
            (k in t'.stocks <==> k in t.stocks) && (k in t.stocks ==> t'.stocks[k] == t.stocks[k]))
      && (e in t.ledger <==> e in t'.ledger)
      && (e in t.ledger && e !in FakeEntries(t.items, t.ledger) ==> t'.ledger[e] == t.ledger[e])
  {
  }

  // ---------------------------------------------------------------- round trip

  ghost predicate NoBackups(t: Tables) {
    t.stocksBackup == [] && t.nullBackup == map[] && t.ledgerBackup == map[]
  }

  /** The slots whose NULL key is taken by a row that spells the sentinel as its batch code. */
  ghost predicate SpellsSentinel(stocks: Stocks, slot: Slot) {
    NullKey(slot) in stocks && stocks[NullKey(slot)].code.Some?
  }

  lemma OneBatchOfBackups(rows: Stocks)
    ensures !BackupClashes([rows]) && BackupRows([rows]) == rows
  {
    assert [rows][..0] == [];
    assert BackupRows([]) + rows == rows;
  }

  lemma LedgerRoundTrip(items: Items, ledger: Ledger)
    ensures RestoredLedger(CollapsedLedger(items, ledger), FakeCodes(items, ledger)) == ledger
  {
    hide Fake;
  }

  /** Restoring the codes moves entries only onto keys of entries that stay: none has to wait for another. */
  ghost predicate RestoreTargetsStay(ledger: Ledger, backup: map<Id, Option<string>>) {
    TargetsStay(LedgerKeys(ledger), LedgerKeys(RestoredLedger(ledger, backup)))
  }

  /** After a first upgrade that is so: whatever order the downgrade updates the ledger in, it meets no conflict. */
  lemma RestoreMeetsNoConflict(items: Items, ledger: Ledger)
    requires Unique(LedgerKeys(CollapsedLedger(items, ledger)))
    ensures RestoreTargetsStay(CollapsedLedger(items, ledger), FakeCodes(items, ledger))
  {
    var before, after := LedgerKeys(CollapsedLedger(items, ledger)), LedgerKeys(ledger);
    LedgerRoundTrip(items, ledger);
    forall e | e in ledger ensures
      && e in before && e in after && after[e].4 == CodeKey(ledger[e].code)
      && before[e] == (if e in FakeEntries(items, ledger)
                       then (after[e].0, after[e].1, after[e].2, after[e].3, SENTINEL, after[e].5) else after[e])
      && (e in FakeEntries(items, ledger) ==> after[e].4 != SENTINEL)
    {
      CollapsedKey(items, ledger, e);
      if e in FakeEntries(items, ledger) {
        FakeIsNotSentinel(items, ledger[e].item, ledger[e].code);
      }
    }
    assert before.Keys == after.Keys == ledger.Keys;
    hide LedgerKeys, FakeEntries, CollapsedLedger, RestoredLedger, FakeCodes, CodeKey;
  }

  /** The backups of a first upgrade are exactly what it saw. */
  lemma FirstUpgrade(t: Tables)
    requires NoBackups(t) && Upgrade(t).Done?
    ensures Upgrade(t).state == Tables(t.items, CollapsedStocks(t.items, t.stocks), CollapsedLedger(t.items, t.ledger),
      [FakeRows(t.items, t.stocks)], NullQtys(t.items, t.stocks), FakeCodes(t.items, t.ledger))
  {
    hide CollapsedStocks, CollapsedLedger, FakeRows, NullQtys, FakeCodes;
    assert [] + [FakeRows(t.items, t.stocks)] == [FakeRows(t.items, t.stocks)];
    assert NullQtys(t.items, t.stocks) + t.nullBackup == NullQtys(t.items, t.stocks);
    assert FakeCodes(t.items, t.ledger) + t.ledgerBackup == FakeCodes(t.items, t.ledger);
  }

  /** The stock table after upgrade and downgrade. */
  ghost function RoundTripped(items: Items, stocks: Stocks): Stocks {
    RestoredFakes(RestoredNulls(CollapsedStocks(items, stocks), NullQtys(items, stocks)), FakeRows(items, stocks))
  }

  /** From empty backup tables the downgrade always goes through after the upgrade. */
  lemma DowngradeGoesThrough(t: Tables)
    requires SchemaHolds(t) && NoBackups(t) && Upgrade(t).Done?
    ensures Downgrade(Upgrade(t).state) ==
      Done(Upgrade(t).state.(ledger := t.ledger, stocks := RoundTripped(t.items, t.stocks)))
  {
    hide CollapsedStocks, CollapsedLedger, RestoredLedger, RestoredNulls, RestoredFakes, FakeRows, FakeCodes, NullQtys;
    FirstUpgrade(t);
    LedgerRoundTrip(t.items, t.ledger);
    OneBatchOfBackups(FakeRows(t.items, t.stocks));
    hide Upgrade;
  }

  /** Whether a key is the NULL slot of an affected item. */
  predicate ReceivesFakes(items: Items, stocks: Stocks, k: Key) {
    k.codeKey == SENTINEL && k.slot in Affected(items, stocks)
  }

  lemma ReceiversAreNullKeys(items: Items, stocks: Stocks, k: Key)
    ensures k in AffectedNullKeys(items, stocks) <==> ReceivesFakes(items, stocks, k)
  {
    hide Affected;
    if ReceivesFakes(items, stocks, k) {
      assert k == NullKey(k.slot);
    }
  }

  /** What the round trip does to one row. */
  lemma RowAfterRoundTrip(items: Items, stocks: Stocks, k: Key)
    requires forall j :: j in stocks ==> j.codeKey == CodeKey(stocks[j].code)
    ensures var stocks'' := RoundTripped(items, stocks);
      && (k in stocks'' <==> k in stocks || ReceivesFakes(items, stocks, k))
      && (k in stocks && ReceivesFakes(items, stocks, k) && stocks[k].code.Some? ==>
            stocks''[k] == stocks[k].(qty := stocks[k].qty + AddQty(items, stocks, k.slot)))
      && (k in stocks && !(ReceivesFakes(items, stocks, k) && stocks[k].code.Some?) ==> stocks''[k] == stocks[k])
      && (k in stocks'' && k !in stocks ==> stocks''[k] == Stock(None, 0))
  {
    hide AddQty, AffectedNullKeys, Fake;
    ReceiversAreNullKeys(items, stocks, k);
    NullKeyIsNotFake(items, stocks, k.slot);
    assert k.codeKey == SENTINEL ==> k == NullKey(k.slot);
    var fakes := FakeRows(items, stocks);
    var collapsed := CollapsedStocks(items, stocks);
    var nulls := RestoredNulls(collapsed, NullQtys(items, stocks));
    if k in fakes {
      assert k !in collapsed && k !in nulls;
    } else {
      assert k in collapsed <==> k in stocks || ReceivesFakes(items, stocks, k);
      assert k in nulls <==> k in collapsed;
    }
  }

  /** The round trip: the ledger comes back verbatim, every stock row comes back verbatim, codes that differ
      only in case included, and the only additions are empty NULL slots; exactly when no affected item keeps stock
      under the literal sentinel as its batch code (or what was added to it was zero). */
  lemma RoundTripExactly(t: Tables)
    requires SchemaHolds(t) && NoBackups(t) && Upgrade(t).Done?
    ensures Downgrade(Upgrade(t).state).Done?
    ensures var t'' := Downgrade(Upgrade(t).state).state;
      && t''.ledger == t.ledger
      && (forall k :: k in t''.stocks && k !in t.stocks ==>
            t''.stocks[k] == Stock(None, 0) && ReceivesFakes(t.items, t.stocks, k))
      && ((forall k :: k in t.stocks ==> k in t''.stocks && t''.stocks[k] == t.stocks[k]) <==>
          (forall slot :: slot in Affected(t.items, t.stocks) && SpellsSentinel(t.stocks, slot) ==>
             AddQty(t.items, t.stocks, slot) == 0))
  {
    hide AddQty, RoundTripped, Affected, Upgrade, Downgrade;
    DowngradeGoesThrough(t);
    var stocks'' := RoundTripped(t.items, t.stocks);
    forall k ensures
      && (k in stocks'' <==> k in t.stocks || ReceivesFakes(t.items, t.stocks, k))
      && (k in t.stocks && ReceivesFakes(t.items, t.stocks, k) && t.stocks[k].code.Some? ==>
            stocks''[k] == t.stocks[k].(qty := t.stocks[k].qty + AddQty(t.items, t.stocks, k.slot)))
      && (k in t.stocks && !(ReceivesFakes(t.items, t.stocks, k) && t.stocks[k].code.Some?) ==> stocks''[k] == t.stocks[k])
      && (k in stocks'' && k !in t.stocks ==> stocks''[k] == Stock(None, 0))
    {
      RowAfterRoundTrip(t.items, t.stocks, k);
    }
    forall slot | slot in Affected(t.items, t.stocks) && SpellsSentinel(t.stocks, slot)
      ensures stocks''[NullKey(slot)] == t.stocks[NullKey(slot)] <==> AddQty(t.items, t.stocks, slot) == 0
    {
      assert ReceivesFakes(t.items, t.stocks, NullKey(slot));
    }
    forall k | k in t.stocks && stocks''[k] != t.stocks[k]
      ensures k.slot in Affected(t.items, t.stocks) && SpellsSentinel(t.stocks, k.slot)
      ensures AddQty(t.items, t.stocks, k.slot) != 0
    {
      assert k == NullKey(k.slot);
    }
  }

  /** A fake row is there again after the round trip, and its backup still is. */
  lemma FakeRowReturns(t: Tables, k: Key)
    requires SchemaHolds(t) && NoBackups(t) && Upgrade(t).Done? && k in FakeRows(t.items, t.stocks)
    ensures Downgrade(Upgrade(t).state).Done?
    ensures var t2 := Downgrade(Upgrade(t).state).state;
      k in FakeRows(t2.items, t2.stocks) && t2.stocksBackup == [FakeRows(t.items, t.stocks)]
  {
    hide Upgrade, Downgrade, RoundTripped;
    FirstUpgrade(t);
    DowngradeGoesThrough(t);
    NullKeyIsNotFake(t.items, t.stocks, k.slot);
    assert k.codeKey == SENTINEL ==> k == NullKey(k.slot);
    RowAfterRoundTrip(t.items, t.stocks, k);
  }

  /** Every upgrade adds a batch to the backup. */
  lemma BackupPilesUp(t: Tables)
    requires Upgrade(t).Done?
    ensures Upgrade(t).state.stocksBackup == t.stocksBackup + [FakeRows(t.items, t.stocks)]
  {
  }

  /** The downgrade leaves its backups in place, so a second round trip cannot be completed once there was any fake
      row: the backup table then names the same key twice. */
  lemma SecondDowngradeAborts(t: Tables)
    requires SchemaHolds(t) && NoBackups(t) && Upgrade(t).Done? && FakeRows(t.items, t.stocks) != map[]
    ensures var back := Downgrade(Upgrade(t).state);
      back.Done? && (Upgrade(back.state).Done? ==> Downgrade(Upgrade(back.state).state).Aborted?)
  {
    var k :| k in FakeRows(t.items, t.stocks);
    hide Upgrade, Downgrade, FakeRows, SchemaHolds;
    FakeRowReturns(t, k);
    var t2 := Downgrade(Upgrade(t).state).state;
    if Upgrade(t2).Done? {
      BackupPilesUp(t2);
      TwiceInBackup(Upgrade(t2).state, k);
    }
  }

  /** Without fake stock an upgrade leaves `stocks` alone, and so does the round trip. */
  lemma NothingToCollapse(items: Items, stocks: Stocks)
    requires FakeRows(items, stocks) == map[]
    ensures Affected(items, stocks) == {} && SumsFit(items, stocks)
    ensures CollapsedStocks(items, stocks) == stocks && RoundTripped(items, stocks) == stocks
  {
    hide FakeRows, AddQty;
    assert AffectedNullKeys(items, stocks) == {};
    assert RestoredNulls(stocks, NullQtys(items, stocks)) == stocks;
  }

  /** A database without fake stock takes a second upgrade and a second downgrade, and is restored again. */
  lemma NoFakesRepeat(t: Tables)
    requires SchemaHolds(t) && NoBackups(t) && Upgrade(t).Done? && FakeRows(t.items, t.stocks) == map[]
    ensures var back := Downgrade(Upgrade(t).state);
      back.Done? && Upgrade(back.state).Done? &&
      var again := Downgrade(Upgrade(back.state).state);
      again.Done? && again.state.stocks == t.stocks && again.state.ledger == t.ledger
  {
    hide FakeRows, CollapsedLedger, FakeCodes, RestoredLedger, LedgerKeys, Unique, SumsFit, CollapsedStocks, RoundTripped,
         RestoredNulls, RestoredFakes, NullQtys;
    FirstUpgrade(t);
    DowngradeGoesThrough(t);
    NothingToCollapse(t.items, t.stocks);
    var t2 := Downgrade(Upgrade(t).state).state;
    assert t2.stocks == t.stocks && t2.ledger == t.ledger;
    var t3 := Upgrade(t2).state;
    SecondBackups(t);
    assert t3.stocks == t.stocks && t3.ledger == CollapsedLedger(t.items, t.ledger);
    LedgerRoundTrip(t.items, t.ledger);
    EmptyBackupsRestoreNothing(t);
  }

  /** What two upgrades without fake stock have backed up. */
  lemma SecondBackups(t: Tables)
    requires FakeRows(t.items, t.stocks) == map[]
    ensures NullQtys(t.items, t.stocks) == map[] && NullQtys(t.items, t.stocks) + NullQtys(t.items, t.stocks) == map[]
    ensures FakeCodes(t.items, t.ledger) + FakeCodes(t.items, t.ledger) == FakeCodes(t.items, t.ledger)
    ensures [FakeRows(t.items, t.stocks)] + [FakeRows(t.items, t.stocks)] == [map[], map[]]
  {
    hide FakeRows, FakeCodes;
  }

  lemma EmptyBackupsRestoreNothing(t: Tables)
    ensures !BackupClashes([map[], map[]])
    ensures RestoredFakes(RestoredNulls(t.stocks, map[]), BackupRows([map[], map[]])) == t.stocks
  {
    var none: Stocks := map[];
    assert [none, none][..1] == [none];
    OneBatchOfBackups(none);
    assert BackupRows([none, none]) == none;
    assert RestoredNulls(t.stocks, map[]) == t.stocks;
  }

  /** Exactly when the round trip can be repeated, if the second upgrade goes through: when there was no fake stock. */
  lemma RepeatsExactly(t: Tables)
    requires SchemaHolds(t) && NoBackups(t) && Upgrade(t).Done?
    ensures var back := Downgrade(Upgrade(t).state);
      && back.Done?
      && (FakeRows(t.items, t.stocks) == map[] ==> Upgrade(back.state).Done?)
      && (Upgrade(back.state).Done? ==>
            (Downgrade(Upgrade(back.state).state).Done? <==> FakeRows(t.items, t.stocks) == map[]))
  {
    hide Upgrade, Downgrade, SchemaHolds, FakeRows;
    if FakeRows(t.items, t.stocks) == map[] {
      NoFakesRepeat(t);
    } else {
      SecondDowngradeAborts(t);
    }
  }

  lemma TwiceInBackup(t: Tables, k: Key)
    requires |t.stocksBackup| == 2 && k in t.stocksBackup[0] && k in t.stocksBackup[1]
    ensures Downgrade(t).Aborted?
  {
  }
}
