/** The finance cache: `finance_shipping_cost_lines` materialises a join of four tables and is kept up
    to date by row triggers. This module gives each statement, with the triggers it fires, as a function
    on values, and proves that the cache never drifts from the join. */
module FinanceCache {
  import opened Sql

  type Id = nat

  /** shipping_records: the columns the cost line copies or joins on. */
  datatype Record = Record(
    platform: string, storeCode: string,
    orderRef: string, packageNo: int, trackingNo: Option<string>,
    warehouseId: Id,
    providerId: Id, providerCode: Option<string>, providerName: Option<string>,
    createdAt: int,
    destProvince: Option<string>, destCity: Option<string>,
    grossWeight: Option<real>, freight: Option<real>, surcharge: Option<real>, cost: Option<real>)

  /** The other three sources; `active` stands for the columns that the join does not read. */
  datatype Warehouse = Warehouse(name: Option<string>, active: bool)
  datatype Provider = Provider(code: Option<string>, name: Option<string>, active: bool)
  datatype Store = Store(platform: string, storeCode: string, storeName: string, active: bool)

  /** One row of finance_shipping_cost_lines, without its surrogate id and `calculated_at`. */
  datatype CostLine = CostLine(
    platform: string, storeCode: string, storeName: Option<string>,
    orderRef: string, packageNo: int, trackingNo: Option<string>,
    warehouseId: Id, warehouseName: string,
    providerId: Id, providerCode: Option<string>, providerName: Option<string>,
    shippedTime: int, shippedDate: int,
    destProvince: Option<string>, destCity: Option<string>,
    grossWeight: Option<real>, freight: Option<real>, surcharge: Option<real>, cost: Option<real>,
    sourceUpdatedAt: int)

  datatype Sources = Sources(
    records: map<Id, Record>, warehouses: map<Id, Warehouse>,
    providers: map<Id, Provider>, stores: map<Id, Store>)

  /** `lines` is keyed by shipping_record_id, which the table declares unique. */
  type Lines = map<Id, CostLine>
  datatype Database = Database(src: Sources, lines: Lines)

  const SECONDS_PER_DAY := 86400

  // ---------------------------------------------------------------- the join

  /** The store join condition: platforms up to case, codes up to surrounding spaces. */
  predicate SameStore(platform: string, code: string, platform': string, code': string) {
    Upper(platform) == Upper(platform') && Btrim(code) == Btrim(code')
  }

  /** The stores that the LEFT JOIN pairs with a record. */
  function Matches(stores: map<Id, Store>, r: Record): set<Id> {
    set s | s in stores && SameStore(stores[s].platform, stores[s].storeCode, r.platform, r.storeCode)
  }

  /** Two joined rows for one record: its upsert would have to touch the same line twice. */
  ghost predicate Ambiguous(stores: map<Id, Store>, r: Record) {
    exists a, b :: a in Matches(stores, r) && b in Matches(stores, r) && a != b
  }

  /** The inner join with warehouses finds a row. */
  predicate Joinable(src: Sources, id: Id) {
    id in src.records && src.records[id].warehouseId in src.warehouses
  }

  /** The record joins to more than one row. */
  ghost predicate Clashes(src: Sources, id: Id) {
    Joinable(src, id) && Ambiguous(src.stores, src.records[id])
  }

  ghost function MatchedStoreName(stores: map<Id, Store>, r: Record): Option<string> {
    var matches := Matches(stores, r);
    if matches == {} then None else Some(stores[SomeRow(matches)].storeName)
  }

  /** The SELECT list, given the values that come from the joined rows. */
  function LineOf(r: Record, w: Warehouse, p: Option<Provider>, storeName: Option<string>): CostLine {
    CostLine(
      r.platform, r.storeCode, storeName,
      r.orderRef, r.packageNo, r.trackingNo,
      r.warehouseId, w.name.GetOr(""),
      r.providerId,
      Coalesce(if p.Some? then p.value.code else None, r.providerCode),
      Coalesce(if p.Some? then p.value.name else None, r.providerName),
      r.createdAt, r.createdAt / SECONDS_PER_DAY,
      r.destProvince, r.destCity,
      r.grossWeight, r.freight, r.surcharge, r.cost,
      r.createdAt)
  }

  /** The recomputed join row of a record. */
  ghost function Expected(src: Sources, id: Id): CostLine
    requires Joinable(src, id)
  {
    var r := src.records[id];
    LineOf(r, src.warehouses[r.warehouseId],
           if r.providerId in src.providers then Some(src.providers[r.providerId]) else None,
           MatchedStoreName(src.stores, r))
  }

  // ---------------------------------------------------------------- refreshing

  /** finance_refresh_shipping_cost_line(id). */
  ghost function Refresh(src: Sources, lines: Lines, id: Id): Outcome<Lines> {
    if !Joinable(src, id) then Done(lines)
    else if Clashes(src, id) then Aborted
    else Done(lines[id := Expected(src, id)])
  }

  /** A sequence of refresh calls. */
  ghost function RefreshSeq(src: Sources, lines: Lines, ids: seq<Id>): Outcome<Lines>
    decreases |ids|
  {
    if ids == [] then Done(lines) else
    var first := Refresh(src, lines, ids[0]);
    if first.Aborted? then Aborted else RefreshSeq(src, first.state, ids[1..])
  }

  /** What refreshing a set of records amounts to, with no order in it. */
  ghost function RefreshSet(src: Sources, lines: Lines, ids: set<Id>): Outcome<Lines> {
    if exists id :: id in ids && Clashes(src, id) then Aborted
    else Done(map id | id in lines.Keys + ids && (id in lines || Joinable(src, id)) ::
                if id in ids && Joinable(src, id) then Expected(src, id) else lines[id])
  }

  lemma RefreshSetCompose(src: Sources, lines: Lines, ids: set<Id>, ids': set<Id>)
    requires RefreshSet(src, lines, ids).Done?
    ensures RefreshSet(src, RefreshSet(src, lines, ids).state, ids') == RefreshSet(src, lines, ids + ids')
  {
    var whole := RefreshSet(src, lines, ids + ids');
    var second := RefreshSet(src, RefreshSet(src, lines, ids).state, ids');
    if second.Done? {
      assert second.state == whole.state;
    }
  }

  lemma RefreshIsSingleton(src: Sources, lines: Lines, id: Id)
    ensures Refresh(src, lines, id) == RefreshSet(src, lines, {id})
  {
    var s := RefreshSet(src, lines, {id});
    if Clashes(src, id) {
      assert id in {id};
    } else {
      assert s.state == Refresh(src, lines, id).state;
    }
  }

  function AsSet(ids: seq<Id>): set<Id> {
    set id | id in ids
  }

  /** Any order and any repetition of refresh calls does what the unordered refresh does. */
  lemma {:induction false} RefreshSeqIsSetwise(src: Sources, lines: Lines, ids: seq<Id>)
    ensures RefreshSeq(src, lines, ids) == RefreshSet(src, lines, AsSet(ids))
    decreases |ids|
  {
    var all := AsSet(ids);
    if ids == [] {
      assert RefreshSet(src, lines, all).state == lines;
    } else {
      RefreshIsSingleton(src, lines, ids[0]);
      var rest := AsSet(ids[1..]);
      assert all == {ids[0]} + rest;
      var first := Refresh(src, lines, ids[0]);
      if first.Done? {
        RefreshSeqIsSetwise(src, first.state, ids[1..]);
        RefreshSetCompose(src, lines, {ids[0]}, rest);
      } else {
        assert Clashes(src, ids[0]) && ids[0] in all;
      }
    }
  }

  /** Confluence: two histories of refresh calls over the same records agree, also on aborting. */
  lemma RefreshConfluence(src: Sources, lines: Lines, ids: seq<Id>, ids': seq<Id>)
    requires forall id :: id in ids <==> id in ids'
    ensures RefreshSeq(src, lines, ids) == RefreshSeq(src, lines, ids')
  {
    hide RefreshSet, RefreshSeq;
    RefreshSeqIsSetwise(src, lines, ids);
    RefreshSeqIsSetwise(src, lines, ids');
    assert AsSet(ids) == AsSet(ids');
  }

  // ---------------------------------------------------------------- statements

  datatype StoreColumn = StorePlatform | StoreCode | StoreName | StoreActive
  datatype WarehouseColumn = WarehouseName | WarehouseActive
  datatype ProviderColumn = ProviderCode | ProviderName | ProviderActive

  /** One SQL statement. `cols` is the SET list; `rows` gives the values written, per row id. */
  datatype Statement =
    | InsertRecords(newRecords: map<Id, Record>)
    | UpdateRecords(records: map<Id, Record>)
    | DeleteRecords(ids: set<Id>)
    | InsertStores(newStores: map<Id, Store>)
    | UpdateStores(storeCols: set<StoreColumn>, stores: map<Id, Store>)
    | DeleteStores(ids: set<Id>)
    | InsertWarehouses(newWarehouses: map<Id, Warehouse>)
    | UpdateWarehouses(warehouseCols: set<WarehouseColumn>, warehouses: map<Id, Warehouse>)
    | DeleteWarehouses(ids: set<Id>)
    | InsertProviders(newProviders: map<Id, Provider>)
    | UpdateProviders(providerCols: set<ProviderColumn>, providers: map<Id, Provider>)
    | DeleteProviders(ids: set<Id>)

  function SetStore(cols: set<StoreColumn>, old_: Store, new_: Store): Store {
    Store(if StorePlatform in cols then new_.platform else old_.platform,
          if StoreCode in cols then new_.storeCode else old_.storeCode,
          if StoreName in cols then new_.storeName else old_.storeName,
          if StoreActive in cols then new_.active else old_.active)
  }

  function SetWarehouse(cols: set<WarehouseColumn>, old_: Warehouse, new_: Warehouse): Warehouse {
    Warehouse(if WarehouseName in cols then new_.name else old_.name,
              if WarehouseActive in cols then new_.active else old_.active)
  }

  function SetProvider(cols: set<ProviderColumn>, old_: Provider, new_: Provider): Provider {
    Provider(if ProviderCode in cols then new_.code else old_.code,
             if ProviderName in cols then new_.name else old_.name,
             if ProviderActive in cols then new_.active else old_.active)
  }

  /** Every record points at an existing warehouse and an existing provider. */
  predicate ForeignKeysHold(src: Sources) {
    forall id :: id in src.records ==>
      src.records[id].warehouseId in src.warehouses && src.records[id].providerId in src.providers
  }

  /** uq_stores_platform_store_code: unique on the raw pair. */
  predicate RawStoreKeysUnique(stores: map<Id, Store>) {
    forall a, b :: a in stores && b in stores && a != b ==>
      !(stores[a].platform == stores[b].platform && stores[a].storeCode == stores[b].storeCode)
  }

  /** The two unique keys of shipping_records. */
  predicate RecordKeysUnique(records: map<Id, Record>) {
    forall a, b :: a in records && b in records && a != b ==>
      && !(records[a].platform == records[b].platform && records[a].storeCode == records[b].storeCode &&
           records[a].orderRef == records[b].orderRef && records[a].packageNo == records[b].packageNo)
      && !(records[a].trackingNo.Some? && records[a].trackingNo == records[b].trackingNo &&
           records[a].providerId == records[b].providerId)
  }

  predicate ConstraintsHold(src: Sources) {
    ForeignKeysHold(src) && RawStoreKeysUnique(src.stores) && RecordKeysUnique(src.records)
  }

  /** The four source tables once the statement has been applied to all its rows. */
  function Applied(src: Sources, stmt: Statement): Sources {
    match stmt
    case InsertRecords(rows) => src.(records := src.records + rows)
    case UpdateRecords(rows) =>
      src.(records := map r | r in src.records :: if r in rows then rows[r] else src.records[r])
    case DeleteRecords(ids) => src.(records := src.records - ids)
    case InsertStores(rows) => src.(stores := src.stores + rows)
    case UpdateStores(cols, rows) =>
      src.(stores := map s | s in src.stores ::
        if s in rows then SetStore(cols, src.stores[s], rows[s]) else src.stores[s])
    case DeleteStores(ids) => src.(stores := src.stores - ids)
    case InsertWarehouses(rows) => src.(warehouses := src.warehouses + rows)
    case UpdateWarehouses(cols, rows) =>
      src.(warehouses := map w | w in src.warehouses ::
        if w in rows then SetWarehouse(cols, src.warehouses[w], rows[w]) else src.warehouses[w])
    case DeleteWarehouses(ids) => src.(warehouses := src.warehouses - ids)
    case InsertProviders(rows) => src.(providers := src.providers + rows)
    case UpdateProviders(cols, rows) =>
      src.(providers := map p | p in src.providers ::
        if p in rows then SetProvider(cols, src.providers[p], rows[p]) else src.providers[p])
    case DeleteProviders(ids) => src.(providers := src.providers - ids)
  }

  /** An INSERT must bring fresh ids, and the tables must satisfy their constraints afterwards. */
  predicate Admissible(src: Sources, stmt: Statement) {
    && ConstraintsHold(Applied(src, stmt))
    && match stmt
       case InsertRecords(rows) => rows.Keys !! src.records.Keys
       case InsertStores(rows) => rows.Keys !! src.stores.Keys
       case InsertWarehouses(rows) => rows.Keys !! src.warehouses.Keys
       case InsertProviders(rows) => rows.Keys !! src.providers.Keys
       case _ => true
  }

  // ---------------------------------------------------------------- triggers

  /** SELECT id FROM shipping_records matching a store row. */
  function RecordsOfStore(records: map<Id, Record>, s: Store): set<Id> {
    set id | id in records && SameStore(records[id].platform, records[id].storeCode, s.platform, s.storeCode)
  }

  /** A row of a table, if it is there. */
  function RowAt(table: map<Id, Store>, s: Id): Option<Store> {
    if s in table then Some(table[s]) else None
  }

  /** The two loops of finance_trg_shipping_cost_store_refresh: NEW on insert and update, OLD on update
      and delete. The operation shows in which of the two rows exist. */
  function RecordsOfRow(records: map<Id, Record>, old_: Option<Store>, new_: Option<Store>): set<Id> {
    (if new_.Some? then RecordsOfStore(records, new_.value) else {})
    + (if old_.Some? then RecordsOfStore(records, old_.value) else {})
  }

  /** The same, over all the store rows a statement affects. */
  function RecordsOfRows(records: map<Id, Record>, before: map<Id, Store>, after: map<Id, Store>, rows: set<Id>)
    : set<Id>
  {
    set s, id | s in rows && id in RecordsOfRow(records, RowAt(before, s), RowAt(after, s)) :: id
  }

  function RecordsOfWarehouse(records: map<Id, Record>, w: Id): set<Id> {
    set id | id in records && records[id].warehouseId == w
  }

  function RecordsOfProvider(records: map<Id, Record>, p: Id): set<Id> {
    set id | id in records && records[id].providerId == p
  }

  /** All the records that a statement's affected rows lead to, one FOR loop per row. */
  function RecordsOfEach(recordsOf: map<Id, set<Id>>): set<Id> {
    set row, id | row in recordsOf && id in recordsOf[row] :: id
  }

  /** The columns named by each AFTER UPDATE OF trigger. */
  const STORE_WATCHED := {StoreName, StorePlatform, StoreCode}
  const WAREHOUSE_WATCHED := {WarehouseName}
  const PROVIDER_WATCHED := {ProviderName, ProviderCode}

  /** The records that the row triggers of a statement refresh, over all affected rows. */
  function Visited(src: Sources, stmt: Statement): set<Id> {
    var src' := Applied(src, stmt);
    match stmt
    case InsertRecords(rows) => rows.Keys
    case UpdateRecords(rows) => rows.Keys * src.records.Keys
    case InsertStores(rows) => RecordsOfRows(src'.records, src.stores, src'.stores, rows.Keys)
    case UpdateStores(cols, rows) =>
      if cols !! STORE_WATCHED then {}
      else RecordsOfRows(src'.records, src.stores, src'.stores, rows.Keys * src.stores.Keys)
    case DeleteStores(ids) => RecordsOfRows(src'.records, src.stores, src'.stores, ids * src.stores.Keys)
    case UpdateWarehouses(cols, rows) =>
      if cols !! WAREHOUSE_WATCHED then {}
      else RecordsOfEach(map w | w in rows.Keys * src.warehouses.Keys :: RecordsOfWarehouse(src'.records, w))
    case UpdateProviders(cols, rows) =>
      if cols !! PROVIDER_WATCHED then {}
      else RecordsOfEach(map p | p in rows.Keys * src.providers.Keys :: RecordsOfProvider(src'.records, p))
    case _ => {}
  }

  /** The line table after the DELETE trigger on shipping_records, which only a DELETE there fires. */
  function LinesKept(lines: Lines, stmt: Statement): Lines {
    if stmt.DeleteRecords? then lines - stmt.ids else lines
  }

  /** One statement with its triggers: apply it to every row, then refresh. Any failure undoes it all. */
  ghost function Step(db: Database, stmt: Statement): Outcome<Database> {
    if !Admissible(db.src, stmt) then Aborted else
    var src' := Applied(db.src, stmt);
    match RefreshSet(src', LinesKept(db.lines, stmt), Visited(db.src, stmt))
    case Aborted => Aborted
    case Done(lines') => Done(Database(src', lines'))
  }

  /** A run; a statement that aborts leaves the database as it was. */
  ghost function Run(db: Database, stmts: seq<Statement>): Database
    decreases |stmts|
  {
    if stmts == [] then db else
    var s := Step(db, stmts[0]);
    Run(if s.Done? then s.state else db, stmts[1..])
  }

  // ---------------------------------------------------------------- agreement

  /** No record joins to two stores. */
  ghost predicate OneStoreEach(src: Sources) {
    forall id :: id in src.records ==> !Ambiguous(src.stores, src.records[id])
  }

  /** Exactly one line per record, and each equals the recomputed join. */
  ghost predicate Agrees(db: Database) {
    && db.lines.Keys == db.src.records.Keys
    && forall id :: id in db.lines ==> Joinable(db.src, id) && db.lines[id] == Expected(db.src, id)
  }

  ghost predicate Sound(db: Database) {
    ForeignKeysHold(db.src) && OneStoreEach(db.src) && Agrees(db)
  }

  /** A record whose set of joined stores, or any of their names, changed was reached through the OLD or
      the NEW key of some changed store row. */
  lemma StoreChangeVisits(src: Sources, stmt: Statement, id: Id)
    requires Admissible(src, stmt)
    requires stmt.InsertStores? || stmt.UpdateStores? || stmt.DeleteStores?
    requires id in src.records && id !in Visited(src, stmt)
    ensures var stores' := Applied(src, stmt).stores;
      && Matches(stores', src.records[id]) == Matches(src.stores, src.records[id])
      && forall s :: s in Matches(src.stores, src.records[id]) ==>
           s in stores' && stores'[s].storeName == src.stores[s].storeName
  {
    var src' := Applied(src, stmt);
    var r := src.records[id];
    var before, after := Matches(src.stores, r), Matches(src'.stores, r);
    forall s | s in before
      ensures s in after && src'.stores[s].storeName == src.stores[s].storeName
    {
      assert id in RecordsOfStore(src'.records, src.stores[s]);
      assert id in RecordsOfRow(src'.records, RowAt(src.stores, s), RowAt(src'.stores, s));
    }
    forall s | s in after
      ensures s in before
    {
      assert id in RecordsOfStore(src'.records, src'.stores[s]);
      assert id in RecordsOfRow(src'.records, RowAt(src.stores, s), RowAt(src'.stores, s));
    }
  }

  lemma SameMatchesSameName(stores: map<Id, Store>, stores': map<Id, Store>, r: Record)
    requires Matches(stores', r) == Matches(stores, r)
    requires forall s :: s in Matches(stores, r) ==> s in stores' && stores'[s].storeName == stores[s].storeName
    ensures MatchedStoreName(stores', r) == MatchedStoreName(stores, r)
  {
    if Matches(stores, r) != {} {
      var s := SomeRow(Matches(stores, r));
      assert s in Matches(stores, r);
    }
  }

  /** The key lemma: a record that survives a statement unvisited has the same recomputed join, and the
      same number of matching stores, as before. */
  lemma VisitedCoversChanges(src: Sources, stmt: Statement, id: Id)
    requires ForeignKeysHold(src) && Admissible(src, stmt)
    requires id in src.records && id in Applied(src, stmt).records && id !in Visited(src, stmt)
    requires !Ambiguous(src.stores, src.records[id])
    ensures var src' := Applied(src, stmt);
      && !Ambiguous(src'.stores, src'.records[id])
      && Joinable(src, id) && Joinable(src', id) && Expected(src', id) == Expected(src, id)
  {
    var src' := Applied(src, stmt);
    assert src'.records[id] == src.records[id];
    var r := src.records[id];
    if stmt.InsertStores? || stmt.UpdateStores? || stmt.DeleteStores? {
      StoreChangeVisits(src, stmt, id);
      SameMatchesSameName(src.stores, src'.stores, r);
    } else if stmt.UpdateWarehouses? {
      var reached := map w | w in stmt.warehouses.Keys * src.warehouses.Keys :: RecordsOfWarehouse(src'.records, w);
      assert r.warehouseId in reached ==> id in reached[r.warehouseId];
    } else if stmt.UpdateProviders? {
      var reached := map p | p in stmt.providers.Keys * src.providers.Keys :: RecordsOfProvider(src'.records, p);
      assert r.providerId in reached ==> id in reached[r.providerId];
    }
  }

  /** A record that joins to two stores after a statement is one whose refresh the statement triggers. */
  lemma SecondMatchIsRefreshed(db: Database, stmt: Statement, id: Id)
    requires Sound(db) && Admissible(db.src, stmt)
    requires var src' := Applied(db.src, stmt);
      id in src'.records && Ambiguous(src'.stores, src'.records[id])
    ensures id in Visited(db.src, stmt) && Clashes(Applied(db.src, stmt), id)
  {
    if id in db.src.records && id !in Visited(db.src, stmt) {
      VisitedCoversChanges(db.src, stmt, id);
    }
  }

  lemma VisitedAreRecords(src: Sources, stmt: Statement)
    requires Admissible(src, stmt)
    ensures Visited(src, stmt) <= Applied(src, stmt).records.Keys
  {
  }

  lemma RefreshGoesThrough(src: Sources, lines: Lines, visited: set<Id>)
    requires ForeignKeysHold(src) && visited <= src.records.Keys
    requires forall id :: id in src.records && Ambiguous(src.stores, src.records[id]) ==> id in visited
    ensures RefreshSet(src, lines, visited).Done? <==> OneStoreEach(src)
  {
  }

  /** Exactly when a statement is accepted: its constraints hold, and afterwards no record joins to two
      stores. So a statement that would create a second match always aborts in the refresh. */
  lemma AcceptedExactly(db: Database, stmt: Statement)
    requires Sound(db)
    ensures Step(db, stmt).Done? <==>
      Admissible(db.src, stmt) && OneStoreEach(Applied(db.src, stmt))
  {
    hide Applied, Visited, LinesKept;
    if Admissible(db.src, stmt) {
      var src' := Applied(db.src, stmt);
      VisitedAreRecords(db.src, stmt);
      forall id | id in src'.records && Ambiguous(src'.stores, src'.records[id])
        ensures id in Visited(db.src, stmt)
      {
        SecondMatchIsRefreshed(db, stmt, id);
      }
      RefreshGoesThrough(src', LinesKept(db.lines, stmt), Visited(db.src, stmt));
    }
  }

  /** Refreshing the visited records restores agreement when every other record kept its join. */
  lemma RefreshRestoresAgreement(src: Sources, lines: Lines, visited: set<Id>)
    requires ForeignKeysHold(src) && RefreshSet(src, lines, visited).Done?
    requires lines.Keys + visited == src.records.Keys
    requires forall id :: id in src.records && id !in visited ==> lines[id] == Expected(src, id)
    ensures Agrees(Database(src, RefreshSet(src, lines, visited).state))
  {
    hide Expected, Clashes;
  }

  /** The records after a statement are those it inserts and those it does not delete. */
  lemma RecordsAfter(src: Sources, stmt: Statement)
    ensures Applied(src, stmt).records.Keys ==
      if stmt.InsertRecords? then src.records.Keys + stmt.newRecords.Keys
      else if stmt.DeleteRecords? then src.records.Keys - stmt.ids
      else src.records.Keys
  {
  }

  lemma InsertedAreVisited(src: Sources, stmt: Statement)
    requires stmt.InsertRecords?
    ensures Visited(src, stmt) == stmt.newRecords.Keys
  {
    hide Applied;
  }

  lemma LinesKeptAndVisited(db: Database, stmt: Statement)
    requires Sound(db) && Admissible(db.src, stmt)
    ensures LinesKept(db.lines, stmt).Keys + Visited(db.src, stmt) == Applied(db.src, stmt).records.Keys
    ensures forall id :: id in LinesKept(db.lines, stmt) ==>
      id in db.src.records && LinesKept(db.lines, stmt)[id] == Expected(db.src, id)
  {
    hide Expected, Applied, Admissible, Visited, OneStoreEach;
    VisitedAreRecords(db.src, stmt);
    RecordsAfter(db.src, stmt);
    if stmt.InsertRecords? {
      InsertedAreVisited(db.src, stmt);
    }
  }

  lemma StepKeepsSound(db: Database, stmt: Statement)
    requires Sound(db) && Step(db, stmt).Done?
    ensures Sound(Step(db, stmt).state)
  {
    hide Applied, Visited, LinesKept, RefreshSet, Expected;
    AcceptedExactly(db, stmt);
    LinesKeptAndVisited(db, stmt);
    var src' := Applied(db.src, stmt);
    forall id | id in src'.records && id !in Visited(db.src, stmt)
      ensures LinesKept(db.lines, stmt)[id] == Expected(src', id)
    {
      VisitedCoversChanges(db.src, stmt, id);
    }
    RefreshRestoresAgreement(src', LinesKept(db.lines, stmt), Visited(db.src, stmt));
  }

  /** Cache agreement and hidden uniqueness over every run of statements on the four source tables. */
  lemma {:induction false} RunKeepsSound(db: Database, stmts: seq<Statement>)
    requires Sound(db)
    ensures Sound(Run(db, stmts))
    decreases |stmts|
  {
    if stmts != [] {
      var s := Step(db, stmts[0]);
      if s.Done? {
        StepKeepsSound(db, stmts[0]);
      }
      RunKeepsSound(if s.Done? then s.state else db, stmts[1..]);
    }
  }

  // ---------------------------------------------------------------- the full refresh

  /** SELECT finance_refresh_shipping_cost_line(sr.id) FROM shipping_records sr. */
  ghost function FullRefresh(db: Database): Outcome<Database> {
    match RefreshSet(db.src, db.lines, db.src.records.Keys)
    case Aborted => Aborted
    case Done(lines') => Done(Database(db.src, lines'))
  }

  /** The backfill starts the protocol from any line table that holds no orphans, and goes through
      exactly when no record matches two stores. */
  lemma BackfillStartsSound(db: Database)
    requires ForeignKeysHold(db.src) && db.lines.Keys <= db.src.records.Keys
    ensures FullRefresh(db).Done? <==> OneStoreEach(db.src)
    ensures FullRefresh(db).Done? ==> Sound(FullRefresh(db).state)
  {
  }

  /** The record's line is missing or differs from the recomputed join. */
  ghost predicate OutOfDate(src: Sources, lines: Lines, id: Id) {
    id in src.records && !(id in lines && Joinable(src, id) && lines[id] == Expected(src, id))
  }

  lemma RefreshSetRepairsExactly(src: Sources, lines: Lines, ids: set<Id>)
    requires ForeignKeysHold(src) && OneStoreEach(src) && lines.Keys <= src.records.Keys
    ensures RefreshSet(src, lines, ids).Done?
    ensures Agrees(Database(src, RefreshSet(src, lines, ids).state)) <==>
      forall id :: OutOfDate(src, lines, id) ==> id in ids
  {
    hide Expected;
    assert forall id :: !Clashes(src, id);
    var lines' := RefreshSet(src, lines, ids).state;
    assert lines'.Keys == lines.Keys + (ids * src.records.Keys);
    hide RefreshSet, Ambiguous;
  }

  /** Any sequence of refresh calls, in any order and from any line table without orphans, repairs the cache exactly when it
      covers the records whose lines are out of date. */
  lemma RefreshRepairsExactly(src: Sources, lines: Lines, ids: seq<Id>)
    requires ForeignKeysHold(src) && OneStoreEach(src) && lines.Keys <= src.records.Keys
    ensures RefreshSeq(src, lines, ids).Done?
    ensures Agrees(Database(src, RefreshSeq(src, lines, ids).state)) <==>
      forall id :: OutOfDate(src, lines, id) ==> id in ids
  {
    hide RefreshSet, RefreshSeq, Agrees, OutOfDate;
    RefreshSeqIsSetwise(src, lines, ids);
    RefreshSetRepairsExactly(src, lines, AsSet(ids));
    assert forall id :: id in ids <==> id in AsSet(ids);
  }

  /** After any run that started sound, refreshing every record from an empty table rebuilds the table
      that the triggers maintained one statement at a time. */
  lemma IncrementalEqualsRebuild(db: Database, stmts: seq<Statement>)
    requires Sound(db)
    ensures var db' := Run(db, stmts);
      FullRefresh(db'.(lines := map[])) == Done(db')
  {
    RunKeepsSound(db, stmts);
    var db' := Run(db, stmts);
    var empty := db'.(lines := map[]);
    BackfillStartsSound(empty);
    assert FullRefresh(empty).state.lines == db'.lines;
  }

  /** The raw key does not keep twins out: while no record matches them, stores that differ only in case
      and spaces live side by side in a reachable, sound state. */
  lemma TwinStoresAreReachable(stores: map<Id, Store>)
    requires stores == map[1 := Store("PDD", "A1", "one", true), 2 := Store("pdd", "A1 ", "two", true)]
    ensures var db := Run(Database(Sources(map[], map[], map[], map[]), map[]), [InsertStores(stores)]);
      db.src.stores == stores && Sound(db)
    ensures SameStore(stores[1].platform, stores[1].storeCode, stores[2].platform, stores[2].storeCode)
  {
    assert Upper("pdd") == Upper("PDD");
    assert "A1 "[..2] == "A1";
  }

  /** Twins then shut out every record of that store: inserting one aborts. */
  lemma TwinStoresBlockTheirRecords(db: Database, a: Id, b: Id, rows: map<Id, Record>, id: Id)
    requires Sound(db) && a in db.src.stores && b in db.src.stores && a != b && id in rows
    requires var s, t := db.src.stores[a], db.src.stores[b];
      && SameStore(s.platform, s.storeCode, t.platform, t.storeCode)
      && SameStore(rows[id].platform, rows[id].storeCode, s.platform, s.storeCode)
    ensures Step(db, InsertRecords(rows)).Aborted?
  {
    var src' := Applied(db.src, InsertRecords(rows));
    assert id in src'.records && src'.records[id] == rows[id];
    assert a in Matches(src'.stores, rows[id]) && b in Matches(src'.stores, rows[id]);
    AcceptedExactly(db, InsertRecords(rows));
  }
}
