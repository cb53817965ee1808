/** The finance cache on the raw columns of its tables: what each column of a cost line shows in every reachable state, what a
    statement writes, and when it is accepted. Nothing here is said in terms of the refresh or of its SELECT list. */
module FinanceColumns {
  import opened Sql
  import opened FinanceCache

  /** The columns that a line takes over from its record. */
  predicate CopiesRecord(r: Record, line: CostLine) {
    && line.platform == r.platform && line.storeCode == r.storeCode
    && line.orderRef == r.orderRef && line.packageNo == r.packageNo && line.trackingNo == r.trackingNo
    && line.warehouseId == r.warehouseId && line.providerId == r.providerId
    && line.shippedTime == r.createdAt && line.sourceUpdatedAt == r.createdAt
    && line.shippedDate * 86400 <= r.createdAt < (line.shippedDate + 1) * 86400
    && line.destProvince == r.destProvince && line.destCity == r.destCity && line.grossWeight == r.grossWeight
    && line.freight == r.freight && line.surcharge == r.surcharge && line.cost == r.cost
  }

  /** COALESCE(own, stored): a value of the joined row wins over the one stored in the record. */
  predicate Prefers<T(==)>(shown: Option<T>, own: Option<T>, stored: Option<T>) {
    (own.Some? ==> shown == own) && (own.None? ==> shown == stored)
  }

  predicate ShowsWarehouse(w: Warehouse, name: string) {
    (w.name.Some? ==> name == w.name.value) && (w.name.None? ==> name == "")
  }

  /** Store `s` has the record's platform up to case and its code up to spaces at the ends. */
  predicate JoinsStore(stores: map<Id, Store>, s: Id, r: Record) {
    s in stores && SameUpToCase(stores[s].platform, r.platform) && Btrim(stores[s].storeCode) == Btrim(r.storeCode)
  }

  /** The join as a query over the columns of the four tables: `line` is one of its rows for record `id`. */
  ghost predicate JoinRow(src: Sources, id: Id, line: CostLine) {
    id in src.records &&
    var r := src.records[id];
    && r.warehouseId in src.warehouses && CopiesRecord(r, line)
    && ShowsWarehouse(src.warehouses[r.warehouseId], line.warehouseName)
    && (r.providerId in src.providers ==>
          && Prefers(line.providerCode, src.providers[r.providerId].code, r.providerCode)
          && Prefers(line.providerName, src.providers[r.providerId].name, r.providerName))
    && (r.providerId !in src.providers ==> line.providerCode == r.providerCode && line.providerName == r.providerName)
    && (|| (exists s :: JoinsStore(src.stores, s, r) && line.storeName == Some(src.stores[s].storeName))
        || ((forall s :: !JoinsStore(src.stores, s, r)) && line.storeName == None))
  }

  lemma MatchesAreJoined(stores: map<Id, Store>, r: Record, s: Id)
    ensures s in Matches(stores, r) <==> JoinsStore(stores, s, r)
  {
    if s in stores {
      CaseFolding(stores[s].platform, r.platform);
    }
  }

  lemma DayOf(t: int, d: int)
    ensures d == t / SECONDS_PER_DAY <==> d * 86400 <= t < (d + 1) * 86400
  {
  }

  /** Where a record matches at most one store, its recomputed line is its one row of the query. */
  lemma ExpectedIsJoined(src: Sources, id: Id, line: CostLine)
    requires Joinable(src, id) && !Ambiguous(src.stores, src.records[id])
    ensures JoinRow(src, id, line) <==> line == Expected(src, id)
  {
    var r := src.records[id];
    forall s ensures s in Matches(src.stores, r) <==> JoinsStore(src.stores, s, r) {
      MatchesAreJoined(src.stores, r, s);
    }
    var matches := Matches(src.stores, r);
    if matches != {} {
      assert SomeRow(matches) in matches;
    }
    DayOf(r.createdAt, line.shippedDate);
    DayOf(r.createdAt, Expected(src, id).shippedDate);
    hide Matches, JoinsStore;
  }

  /** In every reachable state the cache is the join, row for row and column for column. */
  lemma CacheIsTheJoin(db: Database, stmts: seq<Statement>, id: Id, line: CostLine)
    requires Sound(db)
    ensures var db' := Run(db, stmts);
      JoinRow(db'.src, id, line) <==> id in db'.lines && db'.lines[id] == line
  {
    RunKeepsSound(db, stmts);
    var db' := Run(db, stmts);
    hide Run, Expected, Ambiguous;
    if Joinable(db'.src, id) {
      ExpectedIsJoined(db'.src, id, line);
    }
  }

  /** The four tables as a statement would leave them, row by row and column by column. */
  lemma StatementWritesItsRows(src: Sources, stmt: Statement)
    ensures var src' := Applied(src, stmt); match stmt
      case InsertRecords(rows) => src' == src.(records := src.records + rows)
      case UpdateRecords(rows) => src' == src.(records := src'.records) && src'.records.Keys == src.records.Keys &&
        forall r :: r in src.records ==> src'.records[r] == if r in rows then rows[r] else src.records[r]
      case DeleteRecords(ids) => src' == src.(records := src.records - ids)
      case InsertStores(rows) => src' == src.(stores := src.stores + rows)
      case UpdateStores(cols, rows) => src' == src.(stores := src'.stores) && src'.stores.Keys == src.stores.Keys &&
        forall s :: s in src.stores ==> var old_, new_ := src.stores[s], src'.stores[s];
          if s !in rows then new_ == old_ else
            && new_.platform == (if StorePlatform in cols then rows[s].platform else old_.platform)
            && new_.storeCode == (if StoreCode in cols then rows[s].storeCode else old_.storeCode)
            && new_.storeName == (if StoreName in cols then rows[s].storeName else old_.storeName)
            && new_.active == (if StoreActive in cols then rows[s].active else old_.active)
      case DeleteStores(ids) => src' == src.(stores := src.stores - ids)
      case InsertWarehouses(rows) => src' == src.(warehouses := src.warehouses + rows)
      case UpdateWarehouses(cols, rows) =>
        src' == src.(warehouses := src'.warehouses) && src'.warehouses.Keys == src.warehouses.Keys &&
        forall w :: w in src.warehouses ==> var old_, new_ := src.warehouses[w], src'.warehouses[w];
          if w !in rows then new_ == old_ else
            && new_.name == (if WarehouseName in cols then rows[w].name else old_.name)
            && new_.active == (if WarehouseActive in cols then rows[w].active else old_.active)
      case DeleteWarehouses(ids) => src' == src.(warehouses := src.warehouses - ids)
      case InsertProviders(rows) => src' == src.(providers := src.providers + rows)
      case UpdateProviders(cols, rows) =>
        src' == src.(providers := src'.providers) && src'.providers.Keys == src.providers.Keys &&
        forall p :: p in src.providers ==> var old_, new_ := src.providers[p], src'.providers[p];
          if p !in rows then new_ == old_ else
            && new_.code == (if ProviderCode in cols then rows[p].code else old_.code)
            && new_.name == (if ProviderName in cols then rows[p].name else old_.name)
            && new_.active == (if ProviderActive in cols then rows[p].active else old_.active)
      case DeleteProviders(ids) => src' == src.(providers := src.providers - ids)
  {
  }

  /** An accepted statement leaves them so. */
  lemma AcceptedIsApplied(db: Database, stmt: Statement)
    requires Step(db, stmt).Done?
    ensures Step(db, stmt).state.src == Applied(db.src, stmt)
  {
    hide Applied, RefreshSet, Visited, LinesKept, ConstraintsHold;
  }

  /** Rows `a` and `b` (or `a` alone) break a foreign key or a unique key. */
  predicate Violates(src: Sources, a: Id, b: Id) {
    || (a in src.records && src.records[a].warehouseId !in src.warehouses)
    || (a in src.records && src.records[a].providerId !in src.providers)
    || (a in src.stores && b in src.stores && a != b &&
          src.stores[a].platform == src.stores[b].platform && src.stores[a].storeCode == src.stores[b].storeCode)
    || (a in src.records && b in src.records && a != b && var r, q := src.records[a], src.records[b];
          || (r.platform == q.platform && r.storeCode == q.storeCode && r.orderRef == q.orderRef && r.packageNo == q.packageNo)
          || (r.providerId == q.providerId && r.trackingNo.Some? && r.trackingNo == q.trackingNo))
  }

  /** An INSERT that names an id already there. */
  predicate ReusesId(src: Sources, stmt: Statement) {
    match stmt
    case InsertRecords(rows) => exists r :: r in rows && r in src.records
    case InsertStores(rows) => exists s :: s in rows && s in src.stores
    case InsertWarehouses(rows) => exists w :: w in rows && w in src.warehouses
    case InsertProviders(rows) => exists p :: p in rows && p in src.providers
    case _ => false
  }

  lemma AdmissibleOnColumns(src: Sources, stmt: Statement)
    ensures Admissible(src, stmt) <==>
      !ReusesId(src, stmt) && forall a, b :: !Violates(Applied(src, stmt), a, b)
  {
    var src' := Applied(src, stmt);
    hide Applied;
    if forall a, b :: !Violates(src', a, b) {
      forall a | a in src'.records
        ensures src'.records[a].warehouseId in src'.warehouses && src'.records[a].providerId in src'.providers
      {
        assert !Violates(src', a, a);
      }
      forall a, b | a in src'.stores && b in src'.stores && a != b
        ensures !(src'.stores[a].platform == src'.stores[b].platform && src'.stores[a].storeCode == src'.stores[b].storeCode)
      {
        assert !Violates(src', a, b);
      }
      assert RecordKeysUnique(src'.records) by {
        forall a, b | a in src'.records && b in src'.records && a != b ensures !Violates(src', a, b) {
        }
      }
    }
  }

  /** Record `id` joins to both stores. */
  predicate JoinsTwo(src: Sources, id: Id, a: Id, b: Id) {
    id in src.records && a != b && JoinsStore(src.stores, a, src.records[id]) && JoinsStore(src.stores, b, src.records[id])
  }

  lemma OneStoreOnColumns(src: Sources)
    ensures OneStoreEach(src) <==> forall id, a, b :: !JoinsTwo(src, id, a, b)
  {
    forall id, s | id in src.records
      ensures s in Matches(src.stores, src.records[id]) <==> JoinsStore(src.stores, s, src.records[id])
    {
      MatchesAreJoined(src.stores, src.records[id], s);
    }
    hide Matches, JoinsStore;
    if id :| id in src.records && Ambiguous(src.stores, src.records[id]) {
      var a, b :| a in Matches(src.stores, src.records[id]) && b in Matches(src.stores, src.records[id]) && a != b;
      assert JoinsTwo(src, id, a, b);
    }
  }

  /** Exactly when a statement is accepted, on the columns of the rows it would leave: no id is used twice, no key is broken,
      and no record joins to two stores. */
  lemma AcceptedOnColumns(db: Database, stmt: Statement)
    requires Sound(db)
    ensures Step(db, stmt).Done? <==>
      var src' := Applied(db.src, stmt);
      && !ReusesId(db.src, stmt) && (forall a, b :: !Violates(src', a, b))
      && (forall id, a, b :: !JoinsTwo(src', id, a, b))
  {
    hide Applied, Admissible, Step, OneStoreEach, JoinsTwo, Violates, ReusesId;
    AcceptedExactly(db, stmt);
    AdmissibleOnColumns(db.src, stmt);
    OneStoreOnColumns(Applied(db.src, stmt));
  }

  /** The line of a record after a statement that lets it exist is its row of the join. */
  lemma StepShowsJoin(db: Database, stmt: Statement, id: Id)
    requires Sound(db) && Step(db, stmt).Done? && id in Step(db, stmt).state.src.records
    ensures var db' := Step(db, stmt).state; id in db'.lines && JoinRow(db'.src, id, db'.lines[id])
  {
    StepKeepsSound(db, stmt);
    var db' := Step(db, stmt).state;
    hide Step, Expected, Ambiguous;
    ExpectedIsJoined(db'.src, id, db'.lines[id]);
  }

  lemma SoundShowsJoin(db: Database, id: Id)
    requires Sound(db) && id in db.src.records
    ensures id in db.lines && JoinRow(db.src, id, db.lines[id])
  {
    hide Expected, Ambiguous;
    ExpectedIsJoined(db.src, id, db.lines[id]);
  }

  /** UPDATE shipping_providers shows in the line of every record of the provider, in the columns it sets and only there. */
  lemma ProviderUpdateShows(db: Database, cols: set<ProviderColumn>, rows: map<Id, Provider>, id: Id)
    requires Sound(db) && Step(db, UpdateProviders(cols, rows)).Done?
    requires id in db.src.records && db.src.records[id].providerId in rows
    ensures id in db.lines && id in Step(db, UpdateProviders(cols, rows)).state.lines
    ensures var r, old_, new_ := db.src.records[id], db.lines[id], Step(db, UpdateProviders(cols, rows)).state.lines[id];
      && (ProviderCode in cols ==> Prefers(new_.providerCode, rows[r.providerId].code, r.providerCode))
      && (ProviderName in cols ==> Prefers(new_.providerName, rows[r.providerId].name, r.providerName))
      && (ProviderCode !in cols ==> new_.providerCode == old_.providerCode)
      && (ProviderName !in cols ==> new_.providerName == old_.providerName)
      && new_ == old_.(providerCode := new_.providerCode, providerName := new_.providerName)
  {
    var stmt := UpdateProviders(cols, rows);
    StatementWritesItsRows(db.src, stmt);
    AcceptedIsApplied(db, stmt);
    var db' := Step(db, stmt).state;
    assert id in db'.src.records;
    SoundShowsJoin(db, id);
    StepShowsJoin(db, stmt, id);
    hide Applied, Step, Sound;
  }

  /** UPDATE warehouses SET name shows in the line of every record of the warehouse, and nowhere else in it. */
  lemma WarehouseUpdateShows(db: Database, cols: set<WarehouseColumn>, rows: map<Id, Warehouse>, id: Id)
    requires Sound(db) && Step(db, UpdateWarehouses(cols, rows)).Done?
    requires id in db.src.records && db.src.records[id].warehouseId in rows
    ensures id in db.lines && id in Step(db, UpdateWarehouses(cols, rows)).state.lines
    ensures var r, old_, new_ := db.src.records[id], db.lines[id], Step(db, UpdateWarehouses(cols, rows)).state.lines[id];
      && (WarehouseName in cols ==> ShowsWarehouse(rows[r.warehouseId], new_.warehouseName))
      && (WarehouseName !in cols ==> new_.warehouseName == old_.warehouseName)
      && new_ == old_.(warehouseName := new_.warehouseName)
  {
    var stmt := UpdateWarehouses(cols, rows);
    StatementWritesItsRows(db.src, stmt);
    AcceptedIsApplied(db, stmt);
    var db' := Step(db, stmt).state;
    assert id in db'.src.records;
    SoundShowsJoin(db, id);
    StepShowsJoin(db, stmt, id);
    hide Applied, Step, Sound;
  }

  /** After UPDATE stores a record shows the new name of the store that it joins to now, and none if it joins to none; the rest
      of its line stays. */
  lemma StoreUpdateShows(db: Database, cols: set<StoreColumn>, rows: map<Id, Store>, id: Id)
    requires Sound(db) && Step(db, UpdateStores(cols, rows)).Done? && id in db.src.records
    ensures id in db.lines && id in Step(db, UpdateStores(cols, rows)).state.lines
    ensures var r, old_, new_ := db.src.records[id], db.lines[id], Step(db, UpdateStores(cols, rows)).state.lines[id];
      var stores' := Step(db, UpdateStores(cols, rows)).state.src.stores;
      && (forall s :: JoinsStore(stores', s, r) ==>
            new_.storeName == Some(if s in rows && StoreName in cols then rows[s].storeName else db.src.stores[s].storeName))
      && ((forall s :: !JoinsStore(stores', s, r)) ==> new_.storeName == None)
      && new_ == old_.(storeName := new_.storeName)
  {
    var stmt := UpdateStores(cols, rows);
    StatementWritesItsRows(db.src, stmt);
    AcceptedIsApplied(db, stmt);
    var db' := Step(db, stmt).state;
    assert id in db'.src.records;
    SoundShowsJoin(db, id);
    StepShowsJoin(db, stmt, id);
    StepKeepsSound(db, stmt);
    OneStoreOnColumns(db'.src);
    hide Applied, Step, Agrees, OneStoreEach, ForeignKeysHold;
    forall s, t | JoinsStore(db'.src.stores, s, db.src.records[id]) && JoinsStore(db'.src.stores, t, db.src.records[id])
      ensures s == t
    {
      assert !JoinsTwo(db'.src, id, s, t);
    }
    hide JoinsStore;
  }
}
