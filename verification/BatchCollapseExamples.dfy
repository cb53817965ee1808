/** Inputs for the collapse of fake codes: a ledger that cannot take it, and stock that the round trip does not restore. */
module BatchCollapseExamples {
  import opened Sql
  import opened MapSums
  import opened UniqueKeys
  import opened BatchCollapse
  import opened BatchCollapseColumns

  /** Two entries of one document line may differ in their fake codes alone. */
  lemma TwoFakesOfOneLineClash(items: Items, ledger: Ledger)
    requires items == map[1 := None]
    requires ledger == map[1 := Entry(1, 1, Some("NOEXP"), "RECEIPT", "R", 1),
                           2 := Entry(1, 1, Some("near"), "RECEIPT", "R", 1)]
    ensures Unique(LedgerKeys(ledger)) && LedgerClash(items, ledger)
  {
    assert "NOEXP"[0] != "near"[0];
    assert Lower("NOEXP") == "noexp" == FAKE_CODES[0] && Lower("near") == "near" == FAKE_CODES[1];
    assert Collide(items, ledger, 1, 2);
  }

  lemma OneEntryNeverClashes(items: Items, ledger: Ledger)
    requires forall a, b :: a in ledger && b in ledger ==> a == b
    ensures !LedgerClash(items, ledger)
  {
    hide Fake;
  }

  /** The fake row and the row under the sentinel of the example. */
  const FAKE_KEY := Key(Slot(1, 1), "NOEXP")
  const SENTINEL_KEY := Key(Slot(1, 1), SENTINEL)

  lemma ExampleFakes(items: Items, stocks: Stocks)
    requires items == map[1 := Some(false)]
    requires stocks == map[FAKE_KEY := Stock(Some("NOEXP"), 2), SENTINEL_KEY := Stock(Some(SENTINEL), 5)]
    ensures Lower("NOEXP") == "noexp"
    ensures FakeRows(items, stocks) == map[FAKE_KEY := Stock(Some("NOEXP"), 2)]
    ensures Affected(items, stocks) == {Slot(1, 1)} && AddQty(items, stocks, Slot(1, 1)) == 2
  {
    assert Lower("NOEXP") == "noexp" == FAKE_CODES[0];
    NullKeyIsNotFake(items, stocks, Slot(1, 1));
    assert FAKE_KEY.codeKey[0] != SENTINEL[0];
    assert Fake(items, 1, Some("NOEXP"));
    hide Fake;
    assert FAKE_KEY in FakeRows(items, stocks);
    var qtys := FakeQtys(items, stocks, Slot(1, 1));
    SumRemove(qtys, FAKE_KEY);
    assert qtys - {FAKE_KEY} == map[];
  }

  /** No constraint keeps the sentinel out of batch_code: stock under it grows by the fake quantity for good. */
  lemma SentinelStockIsNotRestored(t: Tables)
    requires t == Tables(map[1 := Some(false)],
      map[FAKE_KEY := Stock(Some("NOEXP"), 2), SENTINEL_KEY := Stock(Some(SENTINEL), 5)],
      map[1 := Entry(1, 1, Some("NOEXP"), "RECEIPT", "R", 1)], [], map[], map[])
    ensures SchemaHolds(t) && NoBackups(t) && Upgrade(t).Done? && Downgrade(Upgrade(t).state).Done?
    ensures var stocks'' := Downgrade(Upgrade(t).state).state.stocks;
      SENTINEL_KEY in stocks'' && stocks''[SENTINEL_KEY] == Stock(Some(SENTINEL), 7)
  {
    hide Lower, Fake, Btrim, CollapsedStocks, CollapsedLedger, RoundTripped, Downgrade, AddQty, LedgerClash, FakeRows, Affected;
    assert SchemaHolds(t);
    ExampleFakes(t.items, t.stocks);
    assert SumsFit(t.items, t.stocks);
    OneEntryNeverClashes(t.items, t.ledger);
    UpgradeSucceedsExactly(t);
    hide Upgrade;
    DowngradeGoesThrough(t);
    RowAfterRoundTrip(t.items, t.stocks, SENTINEL_KEY);
  }

  /** The same codes on an item with shelf life: the upgrade leaves stock and ledger as they are. */
  lemma ShelfLifeItemIsLeftAlone(t: Tables)
    requires t == Tables(map[1 := Some(true)],
      map[FAKE_KEY := Stock(Some("NOEXP"), 2), Key(Slot(1, 1), "B1") := Stock(Some("B1"), 5)],
      map[1 := Entry(1, 1, Some("NOEXP"), "RECEIPT", "R", 1)], [], map[], map[])
    ensures SchemaHolds(t) && Upgrade(t).Done?
    ensures Upgrade(t).state.stocks == t.stocks && Upgrade(t).state.ledger == t.ledger
  {
    hide Lower, SpellsFake, Upgrade;
    assert SchemaHolds(t);
    assert !NoShelfLife(t.items, 1);
    forall k ensures ErasedRows(t.items, t.stocks, k).Keys == {} {
    }
    OneEntryNeverClashes(t.items, t.ledger);
    SumsFitOnColumns(t.items, t.stocks);
    hide SumsFit, LedgerClash, SchemaHolds, ErasedRows;
    UpgradeSucceedsExactly(t);
    var t' := Upgrade(t).state;
    forall k ensures (k in t'.stocks <==> k in t.stocks) && (k in t.stocks ==> t'.stocks[k] == t.stocks[k]) {
      StockAfterUpgrade(t, k);
    }
    forall e ensures (e in t'.ledger <==> e in t.ledger) && (e in t.ledger ==> t'.ledger[e] == t.ledger[e]) {
      LedgerAfterUpgrade(t, e);
    }
  }
}
