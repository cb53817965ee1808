/** `stocks_lot` is a projection of `stock_ledger`: the rebuild function, the reconcile view and the
    assertion that guards a release. */
module LotLedger {
  import opened Sql
  import opened MapSums

  type Id = nat

  /** A stock slot. `lotKey` is the generated column COALESCE(lot_id, 0). */
  datatype Key = Key(item: Id, warehouse: Id, lotKey: Id)

  datatype Entry = Entry(item: Id, warehouse: Id, lot: Option<Id>, reason: string, delta: int,
                         ref: string, refLine: int)
  datatype Stock = Stock(item: Id, warehouse: Id, lot: Option<Id>, qty: int)

  type Ledger = map<Id, Entry>
  type Stocks = map<Id, Stock>

  const RECEIPT := "RECEIPT"

  function LotKey(lot: Option<Id>): Id {
    lot.GetOr(0)
  }

  function EntryKey(e: Entry): Key {
    Key(e.item, e.warehouse, LotKey(e.lot))
  }

  function StockKey(s: Stock): Key {
    Key(s.item, s.warehouse, LotKey(s.lot))
  }

  /** The ledger rows of one reason, and their slots. */
  function Deltas(ledger: Ledger, reason: string): map<Id, int> {
    map e | e in ledger && ledger[e].reason == reason :: ledger[e].delta
  }

  function EntryKeys(ledger: Ledger): map<Id, Key> {
    map e | e in ledger :: EntryKey(ledger[e])
  }

  function Quantities(stocks: Stocks): map<Id, int> {
    map s | s in stocks :: stocks[s].qty
  }

  function StockKeys(stocks: Stocks): map<Id, Key> {
    map s | s in stocks :: StockKey(stocks[s])
  }

  /** SUM(delta) and SUM(qty) of a slot; 0 when it has no row. */
  ghost function LedgerQty(ledger: Ledger, reason: string, k: Key): int {
    Sum(Group(Deltas(ledger, reason), EntryKeys(ledger), k))
  }

  ghost function StockQty(stocks: Stocks, k: Key): int {
    Sum(Group(Quantities(stocks), StockKeys(stocks), k))
  }

  /** The slots that have a ledger row of this reason. */
  function LedgerSlots(ledger: Ledger, reason: string): set<Key> {
    set e | e in ledger && ledger[e].reason == reason :: EntryKey(ledger[e])
  }

  function StockSlots(stocks: Stocks): set<Key> {
    set s | s in stocks :: StockKey(stocks[s])
  }

  lemma LedgerSlotsAreGroups(ledger: Ledger, reason: string)
    ensures LedgerSlots(ledger, reason) == Groups(Deltas(ledger, reason), EntryKeys(ledger))
  {
    forall e | e in ledger && ledger[e].reason == reason
      ensures EntryKey(ledger[e]) in Groups(Deltas(ledger, reason), EntryKeys(ledger))
    {
      assert e in Deltas(ledger, reason) && EntryKeys(ledger)[e] == EntryKey(ledger[e]);
    }
  }

  lemma StockSlotsAreGroups(stocks: Stocks)
    ensures StockSlots(stocks) == Groups(Quantities(stocks), StockKeys(stocks))
  {
    forall s | s in stocks ensures StockKey(stocks[s]) in Groups(Quantities(stocks), StockKeys(stocks)) {
      assert s in Quantities(stocks) && StockKeys(stocks)[s] == StockKey(stocks[s]);
    }
  }

  // ---------------------------------------------------------------- rebuild

  predicate InSlot(ledger: Ledger, reason: string, k: Key, e: Id) {
    e in ledger && ledger[e].reason == reason && EntryKey(ledger[e]) == k
  }

  /** MAX(lot_id) of a slot; null when every row of it is null. */
  ghost predicate IsMaxLot(ledger: Ledger, reason: string, k: Key, m: Option<Id>) {
    match m
    case None => forall e :: InSlot(ledger, reason, k, e) ==> ledger[e].lot.None?
    case Some(x) =>
      && (exists e :: InSlot(ledger, reason, k, e) && ledger[e].lot == m)
      && (forall e :: InSlot(ledger, reason, k, e) && ledger[e].lot.Some? ==> ledger[e].lot.value <= x)
  }

  /** A table that rebuild_stocks_lot_from_ledger(reason) may leave: one row for each slot whose sum is
      not zero, and no other row. Row ids come from a sequence, so they are left open. */
  ghost predicate IsRebuild(ledger: Ledger, reason: string, stocks: Stocks) {
    && (forall a, b :: a in stocks && b in stocks && a != b ==> StockKey(stocks[a]) != StockKey(stocks[b]))
    && (forall s :: s in stocks ==>
          && StockKey(stocks[s]) in LedgerSlots(ledger, reason)
          && stocks[s].qty == LedgerQty(ledger, reason, StockKey(stocks[s])) != 0
          && IsMaxLot(ledger, reason, StockKey(stocks[s]), stocks[s].lot))
    && (forall k :: k in LedgerSlots(ledger, reason) && LedgerQty(ledger, reason, k) != 0 ==> k in StockSlots(stocks))
  }

  /** The cast of every slot's sum to INTEGER. */
  ghost predicate SumsFit(ledger: Ledger, reason: string) {
    forall k :: k in LedgerSlots(ledger, reason) ==> FitsInteger(LedgerQty(ledger, reason, k))
  }

  lemma NoRowsNoQty(ledger: Ledger, reason: string, k: Key)
    requires k !in LedgerSlots(ledger, reason)
    ensures LedgerQty(ledger, reason, k) == 0
  {
    EmptyGroup(Deltas(ledger, reason), EntryKeys(ledger), k);
  }

  lemma NoStockNoQty(stocks: Stocks, k: Key)
    requires k !in StockSlots(stocks)
    ensures StockQty(stocks, k) == 0
  {
    EmptyGroup(Quantities(stocks), StockKeys(stocks), k);
  }

  lemma OneStockRowQty(stocks: Stocks, s: Id)
    requires s in stocks
    requires forall t :: t in stocks && t != s ==> StockKey(stocks[t]) != StockKey(stocks[s])
    ensures StockQty(stocks, StockKey(stocks[s])) == stocks[s].qty
  {
    SingleRowGroup(Quantities(stocks), StockKeys(stocks), s);
  }

  /** A rebuild is a projection: every slot, recorded or not, holds the ledger's sum. */
  lemma RebuildProjects(ledger: Ledger, reason: string, stocks: Stocks, k: Key)
    requires IsRebuild(ledger, reason, stocks)
    ensures StockQty(stocks, k) == LedgerQty(ledger, reason, k)
  {
    if k in StockSlots(stocks) {
      var s :| s in stocks && StockKey(stocks[s]) == k;
      OneStockRowQty(stocks, s);
    } else {
      NoStockNoQty(stocks, k);
      if k !in LedgerSlots(ledger, reason) {
        NoRowsNoQty(ledger, reason, k);
      }
    }
  }

  /** The rows of a table without their ids. */
  ghost function Rows(stocks: Stocks): set<Stock> {
    set s | s in stocks :: stocks[s]
  }

  lemma RebuiltRowIsIn(ledger: Ledger, reason: string, stocks: Stocks, stocks': Stocks, s: Id)
    requires IsRebuild(ledger, reason, stocks) && IsRebuild(ledger, reason, stocks') && s in stocks
    ensures stocks[s] in Rows(stocks')
  {
    var k := StockKey(stocks[s]);
    assert k in StockSlots(stocks');
    var s' :| s' in stocks' && StockKey(stocks'[s']) == k;
    assert IsMaxLot(ledger, reason, k, stocks[s].lot) && IsMaxLot(ledger, reason, k, stocks'[s'].lot);
    assert stocks'[s'] == stocks[s];
  }

  /** The ledger decides the rebuilt rows: neither row order nor an earlier content of the table matters. */
  lemma RebuildIsDetermined(ledger: Ledger, reason: string, stocks: Stocks, stocks': Stocks)
    requires IsRebuild(ledger, reason, stocks) && IsRebuild(ledger, reason, stocks')
    ensures Rows(stocks) == Rows(stocks')
  {
    forall s | s in stocks ensures stocks[s] in Rows(stocks') {
      RebuiltRowIsIn(ledger, reason, stocks, stocks', s);
    }
    forall s | s in stocks' ensures stocks'[s] in Rows(stocks) {
      RebuiltRowIsIn(ledger, reason, stocks', stocks, s);
    }
  }

  /** One more ledger entry moves its own slot by its delta and no other slot. */
  lemma AppendMovesOneSlot(ledger: Ledger, id: Id, e: Entry, reason: string, k: Key)
    requires id !in ledger
    ensures LedgerQty(ledger[id := e], reason, k) ==
      LedgerQty(ledger, reason, k) + if e.reason == reason && EntryKey(e) == k then e.delta else 0
  {
    var before := Group(Deltas(ledger, reason), EntryKeys(ledger), k);
    var after := Group(Deltas(ledger[id := e], reason), EntryKeys(ledger[id := e]), k);
    if e.reason == reason && EntryKey(e) == k {
      SumRemove(after, id);
      assert after - {id} == before;
    } else {
      assert after == before;
    }
  }

  /** The same, seen in the rebuilt tables: the slot's quantity moves by the delta, every other slot keeps
      its quantity, and a slot has a row exactly when its quantity is not zero. */
  lemma RebuildAfterAppend(ledger: Ledger, id: Id, e: Entry, reason: string, stocks: Stocks, stocks': Stocks, k: Key)
    requires id !in ledger
    requires IsRebuild(ledger, reason, stocks) && IsRebuild(ledger[id := e], reason, stocks')
    ensures StockQty(stocks', k) ==
      StockQty(stocks, k) + if e.reason == reason && EntryKey(e) == k then e.delta else 0
    ensures k in StockSlots(stocks') <==> StockQty(stocks', k) != 0
  {
    RebuildProjects(ledger, reason, stocks, k);
    RebuildProjects(ledger[id := e], reason, stocks', k);
    AppendMovesOneSlot(ledger, id, e, reason, k);
    if k !in LedgerSlots(ledger[id := e], reason) {
      NoRowsNoQty(ledger[id := e], reason, k);
    }
  }

  // ---------------------------------------------------------------- reconcile

  /** ledger_agg and stocks_agg, the two aggregates of the view. */
  ghost function LedgerAgg(ledger: Ledger, reason: string): map<Key, int> {
    map k | k in LedgerSlots(ledger, reason) :: LedgerQty(ledger, reason, k)
  }

  ghost function StocksAgg(stocks: Stocks): map<Key, int> {
    map k | k in StockSlots(stocks) :: StockQty(stocks, k)
  }

  /** COALESCE of a column that an outer join may leave null. */
  function QtyOrZero(agg: map<Key, int>, k: Key): int {
    if k in agg then agg[k] else 0
  }

  /** The full outer join, as diff_qty per slot. It fails when a sum or a difference does not fit INTEGER. */
  function DiffRows(s: map<Key, int>, a: map<Key, int>): Outcome<map<Key, int>> {
    if (forall k :: k in s ==> FitsInteger(s[k])) && (forall k :: k in a ==> FitsInteger(a[k])) &&
       (forall k :: k in s.Keys + a.Keys ==> FitsInteger(QtyOrZero(s, k) - QtyOrZero(a, k)))
    then Done(map k | k in s.Keys + a.Keys :: QtyOrZero(s, k) - QtyOrZero(a, k))
    else Aborted
  }

  /** v_stocks_lot_reconcile_receipt */
  ghost function Reconcile(stocks: Stocks, ledger: Ledger): Outcome<map<Key, int>> {
    DiffRows(StocksAgg(stocks), LedgerAgg(ledger, RECEIPT))
  }

  /** assert_stocks_lot_matches_ledger_receipt returns without raising. */
  ghost predicate AssertionPasses(stocks: Stocks, ledger: Ledger) {
    var diffs := Reconcile(stocks, ledger);
    diffs.Done? && CountNonZero(diffs.state) == 0
  }

  /** Stock and receipt ledger agree on every slot. */
  ghost predicate Reconciled(stocks: Stocks, ledger: Ledger) {
    forall k :: StockQty(stocks, k) == LedgerQty(ledger, RECEIPT, k)
  }

  lemma AggregatesAreSums(stocks: Stocks, ledger: Ledger, k: Key)
    ensures QtyOrZero(StocksAgg(stocks), k) == StockQty(stocks, k)
    ensures QtyOrZero(LedgerAgg(ledger, RECEIPT), k) == LedgerQty(ledger, RECEIPT, k)
  {
    if k !in StockSlots(stocks) { NoStockNoQty(stocks, k); }
    if k !in LedgerSlots(ledger, RECEIPT) { NoRowsNoQty(ledger, RECEIPT, k); }
  }

  lemma NoDiffExactly(s: map<Key, int>, a: map<Key, int>)
    ensures DiffRows(s, a).Done? && CountNonZero(DiffRows(s, a).state) == 0 <==>
      (forall k :: QtyOrZero(s, k) == QtyOrZero(a, k)) && (forall k :: k in a ==> FitsInteger(a[k]))
  {
    var diffs := DiffRows(s, a);
    if diffs.Done? {
      NoneCounted(diffs.state);
      forall k ensures QtyOrZero(s, k) == QtyOrZero(a, k) <==> (k in diffs.state ==> diffs.state[k] == 0) {
      }
    } else if forall k :: QtyOrZero(s, k) == QtyOrZero(a, k) {
      assert forall k :: k in s ==> s[k] == QtyOrZero(a, k);
    }
  }

  /** The assertion passes exactly when the two tables agree on all slots, within INTEGER. */
  lemma AssertionPassesExactly(stocks: Stocks, ledger: Ledger)
    ensures AssertionPasses(stocks, ledger) <==> Reconciled(stocks, ledger) && SumsFit(ledger, RECEIPT)
  {
    hide StockQty, LedgerQty, StockSlots, LedgerSlots, DiffRows;
    NoDiffExactly(StocksAgg(stocks), LedgerAgg(ledger, RECEIPT));
    forall k ensures QtyOrZero(StocksAgg(stocks), k) == StockQty(stocks, k)
      && QtyOrZero(LedgerAgg(ledger, RECEIPT), k) == LedgerQty(ledger, RECEIPT, k)
    {
      AggregatesAreSums(stocks, ledger, k);
    }
    hide QtyOrZero;
  }

  /** For every ledger: a rebuild that went through is accepted by the assertion. */
  lemma RebuildThenAssertPasses(ledger: Ledger, stocks: Stocks)
    requires IsRebuild(ledger, RECEIPT, stocks) && SumsFit(ledger, RECEIPT)
    ensures AssertionPasses(stocks, ledger)
  {
    forall k ensures StockQty(stocks, k) == LedgerQty(ledger, RECEIPT, k) {
      RebuildProjects(ledger, RECEIPT, stocks, k);
    }
    AssertionPassesExactly(stocks, ledger);
  }
}
