/** Inputs for the lot merge: one that goes through, and one that the schema admits for each of the four causes it fails on. */
module LotMergeExamples {
  import opened Sql
  import opened UniqueKeys
  import opened LotLedger
  import opened LotMerge

  /** Lots 1 and 2 are duplicates of one INTERNAL lot, and every other row belongs to lot 3; its draft receipt line has no
      lot yet. */
  const SOUND: Tables := Tables(
    map[1 := Lot(1, 1, INTERNAL, None), 2 := Lot(1, 1, INTERNAL, None), 3 := Lot(1, 2, SUPPLIER, Some("a"))],
    map[3 := Stock(2, 1, Some(3), 1)],
    map[3 := Entry(2, 1, Some(3), RECEIPT, 1, "R", 1)],
    map[3 := Snapshot(0, 1, 2, Some(3), 1)],
    map[3 := ReceiptLine(1, 2, None, false, 1)])

  lemma SoundSchema()
    ensures SchemaHolds(SOUND)
  {
    hide CodeKeysUnique;
  }

  lemma DuplicatesShareGroup()
    ensures SameGroup(SOUND.lots, 1, 2)
  {
  }

  /** A draft receipt line without a lot does not stand in the way of the merge. */
  lemma DraftLineWithoutLotPasses()
    ensures SchemaHolds(SOUND) && Merge(SOUND).Done?
  {
    SoundSchema();
    hide SchemaHolds, Merge, SameGroup, Btrim, Upper;
    assert CodeKeysUnique(SOUND.lots);
    MergeSucceedsExactly(SOUND);
  }

  /** Adding the same row for each of two duplicates respects the schema, but not the merge. */
  lemma OneLotTwice<X>(lots: Lots, ps: map<Id, Pointer<X>>, p: Pointer<X>, ps': map<Id, Pointer<X>>)
    requires PointersHold(lots, ps) && Unique(ps) && SameGroup(lots, 1, 2)
    requires p.warehouse == lots[1].warehouse && p.item == lots[1].item && p.lot == Some(1)
    requires forall r :: r in ps ==> r > 2 && ps[r].item != p.item
    requires ps' == ps[1 := p][2 := p.(lot := Some(2))]
    ensures PointersHold(lots, ps') && Unique(ps') && GroupOwnsTwo(lots, ps')
  {
    assert ps'[1].lot == Some(1) && ps'[2].lot == Some(2) && ps'[1].rest == ps'[2].rest;
  }

  lemma TwoStockRowsBlockMerge(t: Tables)
    requires t == SOUND.(stocks := SOUND.stocks[1 := Stock(1, 1, Some(1), 5)][2 := Stock(1, 1, Some(2), 3)])
    ensures SchemaHolds(t) && Merge(t).Aborted?
  {
    hide Merge, CodeKeysUnique, GroupOwnsTwo, PointersHold, Unique, SameGroup,
         LedgerPointers, SnapshotPointers, ReceiptLinePointers, ConfirmedHaveLots, ReferencesHold;
    SoundSchema();
    DuplicatesShareGroup();
    var before, p := StockPointers(SOUND.stocks), Pointer(1, 1, Some(1), ());
    assert StockPointers(t.stocks) == before[1 := p][2 := p.(lot := Some(2))];
    OneLotTwice(t.lots, before, p, StockPointers(t.stocks));
    hide StockPointers;
    MergeSucceedsExactly(t);
  }

  lemma TwoEntriesBlockMerge(t: Tables)
    requires t == SOUND.(ledger := SOUND.ledger[1 := Entry(1, 1, Some(1), RECEIPT, 5, "R", 2)]
                                               [2 := Entry(1, 1, Some(2), RECEIPT, 3, "R", 2)])
    ensures SchemaHolds(t) && Merge(t).Aborted?
  {
    hide Merge, CodeKeysUnique, GroupOwnsTwo, PointersHold, Unique, SameGroup,
         StockPointers, SnapshotPointers, ReceiptLinePointers, ConfirmedHaveLots, ReferencesHold;
    SoundSchema();
    DuplicatesShareGroup();
    var before, p := LedgerPointers(SOUND.ledger), Pointer(1, 1, Some(1), (RECEIPT, "R", 2));
    assert LedgerPointers(t.ledger) == before[1 := p][2 := p.(lot := Some(2))];
    OneLotTwice(t.lots, before, p, LedgerPointers(t.ledger));
    hide LedgerPointers;
    MergeSucceedsExactly(t);
  }

  lemma TwoSnapshotsBlockMerge(t: Tables)
    requires t == SOUND.(snapshots := SOUND.snapshots[1 := Snapshot(0, 1, 1, Some(1), 5)][2 := Snapshot(0, 1, 1, Some(2), 3)])
    ensures SchemaHolds(t) && Merge(t).Aborted?
  {
    hide Merge, CodeKeysUnique, GroupOwnsTwo, PointersHold, Unique, SameGroup,
         StockPointers, LedgerPointers, ReceiptLinePointers, ConfirmedHaveLots, ReferencesHold;
    SoundSchema();
    DuplicatesShareGroup();
    var before, p := SnapshotPointers(SOUND.snapshots), Pointer(1, 1, Some(1), 0);
    assert SnapshotPointers(t.snapshots) == before[1 := p][2 := p.(lot := Some(2))];
    OneLotTwice(t.lots, before, p, SnapshotPointers(t.snapshots));
    hide SnapshotPointers;
    MergeSucceedsExactly(t);
  }

  /** The index that is replaced was unique on the raw code, which tells "a" from "A". */
  lemma TwoSpellingsBlockMerge(t: Tables)
    requires t == SOUND.(lots := SOUND.lots[4 := Lot(1, 2, SUPPLIER, Some("A"))])
    ensures SchemaHolds(t) && Merge(t).Aborted?
  {
    hide Merge;
    SoundSchema();
    hide Unique;
    assert SchemaHolds(t);
    hide SchemaHolds;
    assert Btrim("a") == "a" && Btrim("A") == "A" && Upper("a") == Upper("A");
    assert t.lots[3].code.value == "a" && t.lots[4].code.value == "A";
    assert !CodeKeysUnique(t.lots);
    MergeSucceedsExactly(t);
  }
}
