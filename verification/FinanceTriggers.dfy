/** The finance cache as the database executes it: tables changed in place, trigger functions that loop
    over record ids, and statements that fire them row by row and roll back when a refresh fails. */
module FinanceTriggers {
  import opened Sql
  import opened FinanceCache
  import opened FinanceColumns

  lemma RefreshNothing(src: Sources, lines: Lines)
    ensures RefreshSet(src, lines, {}) == Done(lines)
  {
    assert RefreshSet(src, lines, {}).state == lines;
  }

  lemma OneMoreRow(records: map<Id, Record>, before: map<Id, Store>, after: map<Id, Store>, rows: set<Id>, s: Id)
    ensures RecordsOfRows(records, before, after, rows + {s}) ==
      RecordsOfRows(records, before, after, rows) + RecordsOfRow(records, RowAt(before, s), RowAt(after, s))
  {
    hide RecordsOfRow, RowAt;
    var mine := RecordsOfRow(records, RowAt(before, s), RowAt(after, s));
    var soFar, now := RecordsOfRows(records, before, after, rows), RecordsOfRows(records, before, after, rows + {s});
    forall id | id in soFar + mine ensures id in now {
      if id in mine {
        assert s in rows + {s};
      }
    }
  }

  /** A refresh that fails on some records fails on any larger set of them. */
  lemma RefreshAborts(src: Sources, lines: Lines, ids: set<Id>, all: set<Id>)
    requires RefreshSet(src, lines, ids).Aborted? && ids <= all
    ensures RefreshSet(src, lines, all).Aborted?
  {
    var id :| id in ids && Clashes(src, id);
    assert id in all;
  }

  class FinanceDb {
    var records: map<Id, Record>
    var warehouses: map<Id, Warehouse>
    var providers: map<Id, Provider>
    var stores: map<Id, Store>
    var lines: Lines

    /** The source tables as one value. */
    function Src(): Sources
      reads this
    {
      Sources(records, warehouses, providers, stores)
    }

    function Contents(): Database
      reads this
    {
      Database(Src(), lines)
    }

    /** finance_refresh_shipping_cost_line: it fails exactly when two stores join, writes no line but the record's, and that line
        shows the joined rows column by column. */
    method RefreshLine(id: Id) returns (ok: bool)
      modifies this`lines
      ensures ok == Refresh(Src(), old(lines), id).Done?
      ensures lines == if ok then Refresh(Src(), old(lines), id).state else old(lines)
      ensures lines - {id} == old(lines) - {id}
      ensures ok && id in records && records[id].warehouseId in warehouses ==> id in lines && JoinRow(Src(), id, lines[id])
    {
      ok := true;
      if id !in records || records[id].warehouseId !in warehouses {
        return;
      }
      var sr := records[id];
      var joined := Matches(stores, sr);
      var storeName := None;
      if joined != {} {
        var s := NextRow(joined);
        if joined - {s} != {} {
          ghost var other := SomeRow(joined - {s});
          assert s in Matches(stores, sr) && other in Matches(stores, sr) && other != s;
          return false;
        }
        assert joined == {s} && SomeRow(joined) == s;
        storeName := Some(stores[s].storeName);
      }
      var spCode, spName := sr.providerCode, sr.providerName;
      if sr.providerId in providers {
        var sp := providers[sr.providerId];
        if sp.code.Some? { spCode := sp.code; }
        if sp.name.Some? { spName := sp.name; }
      }
      var warehouseName := "";
      if warehouses[sr.warehouseId].name.Some? {
        warehouseName := warehouses[sr.warehouseId].name.value;
      }
      var line := CostLine(
        platform := sr.platform, storeCode := sr.storeCode, storeName := storeName,
        orderRef := sr.orderRef, packageNo := sr.packageNo, trackingNo := sr.trackingNo,
        warehouseId := sr.warehouseId, warehouseName := warehouseName,
        providerId := sr.providerId, providerCode := spCode, providerName := spName,
        shippedTime := sr.createdAt, shippedDate := sr.createdAt / SECONDS_PER_DAY,
        destProvince := sr.destProvince, destCity := sr.destCity,
        grossWeight := sr.grossWeight, freight := sr.freight, surcharge := sr.surcharge, cost := sr.cost,
        sourceUpdatedAt := sr.createdAt);
      lines := lines[id := line];
      ExpectedIsJoined(Src(), id, line);
    }

    /** FOR v_record_id IN SELECT .. LOOP PERFORM finance_refresh_shipping_cost_line(v_record_id) */
    method RefreshEach(ids: set<Id>) returns (ok: bool)
      modifies this`lines
      ensures ok == RefreshSet(Src(), old(lines), ids).Done?
      ensures ok ==> lines == RefreshSet(Src(), old(lines), ids).state
    {
      var todo := ids;
      ghost var done: set<Id> := {};
      RefreshNothing(Src(), lines);
      while todo != {}
        invariant done + todo == ids
        invariant RefreshSet(Src(), old(lines), done) == Done(lines)
        decreases todo
      {
        var id := NextRow(todo);
        RefreshIsSingleton(Src(), lines, id);
        RefreshSetCompose(Src(), old(lines), done, {id});
        ok := RefreshLine(id);
        if !ok {
          RefreshAborts(Src(), old(lines), done + {id}, ids);
          return;
        }
        todo, done := todo - {id}, done + {id};
      }
      assert done == ids;
      return true;
    }

    /** finance_trg_shipping_cost_store_refresh */
    method StoreRefresh(old_: Option<Store>, new_: Option<Store>) returns (ok: bool)
      modifies this`lines
      ensures var ids := RecordsOfRow(records, old_, new_);
        && ok == RefreshSet(Src(), old(lines), ids).Done?
        && (ok ==> lines == RefreshSet(Src(), old(lines), ids).state)
    {
      var first := if new_.Some? then RecordsOfStore(records, new_.value) else {};
      var second := if old_.Some? then RecordsOfStore(records, old_.value) else {};
      assert RecordsOfRow(records, old_, new_) == first + second;
      ok := RefreshEach(first);
      if !ok {
        RefreshAborts(Src(), old(lines), first, first + second);
        return;
      }
      RefreshSetCompose(Src(), old(lines), first, second);
      ok := RefreshEach(second);
    }

    /** The store rows' AFTER ROW triggers, run once the whole statement has been applied. */
    method FireStoreRows(before: map<Id, Store>, rows: set<Id>) returns (ok: bool)
      modifies this`lines
      ensures var ids := RecordsOfRows(records, before, stores, rows);
        && ok == RefreshSet(Src(), old(lines), ids).Done?
        && (ok ==> lines == RefreshSet(Src(), old(lines), ids).state)
    {
      var todo := rows;
      ghost var done: set<Id> := {};
      hide RefreshSet;
      RefreshNothing(Src(), lines);
      assert RecordsOfRows(records, before, stores, {}) == {};
      while todo != {}
        invariant done + todo == rows
        invariant RefreshSet(Src(), old(lines), RecordsOfRows(records, before, stores, done)) == Done(lines)
        decreases todo
      {
        var s := NextRow(todo);
        var old_, new_ := RowAt(before, s), RowAt(stores, s);
        ghost var soFar := RecordsOfRows(records, before, stores, done);
        ghost var mine := RecordsOfRow(records, old_, new_);
        RefreshSetCompose(Src(), old(lines), soFar, mine);
        OneMoreRow(records, before, stores, done, s);
        ok := StoreRefresh(old_, new_);
        if !ok {
          RefreshAborts(Src(), old(lines), soFar + mine, RecordsOfRows(records, before, stores, rows));
          return;
        }
        todo, done := todo - {s}, done + {s};
      }
      assert done == rows;
      return true;
    }

    /** The warehouse and provider triggers: one FOR loop per affected row. */
    method FireLookupRows(recordsOf: map<Id, set<Id>>) returns (ok: bool)
      modifies this`lines
      ensures var ids := RecordsOfEach(recordsOf);
        && ok == RefreshSet(Src(), old(lines), ids).Done?
        && (ok ==> lines == RefreshSet(Src(), old(lines), ids).state)
    {
      ghost var all := RecordsOfEach(recordsOf);
      var todo := recordsOf.Keys;
      ghost var done: set<Id> := {};
      RefreshNothing(Src(), lines);
      while todo != {}
        invariant todo <= recordsOf.Keys
        invariant forall id :: id in done ==> id in all
        invariant forall row, id :: row in recordsOf && row !in todo && id in recordsOf[row] ==> id in done
        invariant RefreshSet(Src(), old(lines), done) == Done(lines)
        decreases todo
      {
        var row := NextRow(todo);
        RefreshSetCompose(Src(), old(lines), done, recordsOf[row]);
        assert forall id :: id in recordsOf[row] ==> id in all;
        ok := RefreshEach(recordsOf[row]);
        if !ok {
          RefreshAborts(Src(), old(lines), done + recordsOf[row], all);
          return;
        }
        todo, done := todo - {row}, done + recordsOf[row];
      }
      assert done == all;
      return true;
    }

    /** One store row of an UPDATE, column by column. */
    method SetStoreColumns(cols: set<StoreColumn>, old_: Store, new_: Store) returns (row: Store)
      ensures row == SetStore(cols, old_, new_)
    {
      row := old_;
      if StorePlatform in cols { row := row.(platform := new_.platform); }
      if StoreCode in cols { row := row.(storeCode := new_.storeCode); }
      if StoreName in cols { row := row.(storeName := new_.storeName); }
      if StoreActive in cols { row := row.(active := new_.active); }
    }

    /** UPDATE stores SET .., one row after the other. */
    method UpdateStoreRows(cols: set<StoreColumn>, rows: map<Id, Store>)
      modifies this`stores
      ensures stores == map id | id in old(stores) ::
        if id in rows then SetStore(cols, old(stores)[id], rows[id]) else old(stores)[id]
    {
      hide SetStore;
      var todo := rows.Keys * stores.Keys;
      while todo != {}
        invariant todo <= rows.Keys * stores.Keys && stores.Keys == old(stores).Keys
        invariant forall id :: id in stores ==>
          stores[id] == if id in rows && id !in todo then SetStore(cols, old(stores)[id], rows[id]) else old(stores)[id]
        decreases todo
      {
        var id := NextRow(todo);
        var row := SetStoreColumns(cols, stores[id], rows[id]);
        stores := stores[id := row];
        todo := todo - {id};
      }
    }

    /** UPDATE warehouses SET .., one row after the other. */
    method UpdateWarehouseRows(cols: set<WarehouseColumn>, rows: map<Id, Warehouse>)
      modifies this`warehouses
      ensures warehouses == map id | id in old(warehouses) ::
        if id in rows then SetWarehouse(cols, old(warehouses)[id], rows[id]) else old(warehouses)[id]
    {
      var todo := rows.Keys * warehouses.Keys;
      while todo != {}
        invariant todo <= rows.Keys * warehouses.Keys && warehouses.Keys == old(warehouses).Keys
        invariant forall id :: id in warehouses ==>
          warehouses[id] ==
            if id in rows && id !in todo then SetWarehouse(cols, old(warehouses)[id], rows[id]) else old(warehouses)[id]
        decreases todo
      {
        var id := NextRow(todo);
        var row := warehouses[id];
        if WarehouseName in cols { row := row.(name := rows[id].name); }
        if WarehouseActive in cols { row := row.(active := rows[id].active); }
        warehouses := warehouses[id := row];
        todo := todo - {id};
      }
    }

    /** UPDATE providers SET .., one row after the other. */
    method UpdateProviderRows(cols: set<ProviderColumn>, rows: map<Id, Provider>)
      modifies this`providers
      ensures providers == map id | id in old(providers) ::
        if id in rows then SetProvider(cols, old(providers)[id], rows[id]) else old(providers)[id]
    {
      var todo := rows.Keys * providers.Keys;
      while todo != {}
        invariant todo <= rows.Keys * providers.Keys && providers.Keys == old(providers).Keys
        invariant forall id :: id in providers ==>
          providers[id] ==
            if id in rows && id !in todo then SetProvider(cols, old(providers)[id], rows[id]) else old(providers)[id]
        decreases todo
      {
        var id := NextRow(todo);
        var row := providers[id];
        if ProviderCode in cols { row := row.(code := rows[id].code); }
        if ProviderName in cols { row := row.(name := rows[id].name); }
        if ProviderActive in cols { row := row.(active := rows[id].active); }
        providers := providers[id := row];
        todo := todo - {id};
      }
    }

    /** Applies a statement to all its rows, and the DELETE trigger on shipping_records with it. */
    method ApplyRows(stmt: Statement)
      modifies this
      ensures Src() == Applied(old(Src()), stmt)
      ensures lines == LinesKept(old(lines), stmt)
    {
      hide SetStore, SetWarehouse, SetProvider;
      match stmt {
        case InsertRecords(rows) =>
          records := records + rows;
        case UpdateRecords(rows) =>
          records := map id | id in records :: if id in rows then rows[id] else records[id];
        case DeleteRecords(ids) =>
          records := records - ids;
          lines := map id | id in lines && id !in ids :: lines[id];
        case InsertStores(rows) =>
          stores := stores + rows;
        case UpdateStores(cols, rows) =>
          UpdateStoreRows(cols, rows);
        case DeleteStores(ids) =>
          stores := stores - ids;
        case InsertWarehouses(rows) =>
          warehouses := warehouses + rows;
        case UpdateWarehouses(cols, rows) =>
          UpdateWarehouseRows(cols, rows);
        case DeleteWarehouses(ids) =>
          warehouses := warehouses - ids;
        case InsertProviders(rows) =>
          providers := providers + rows;
        case UpdateProviders(cols, rows) =>
          UpdateProviderRows(cols, rows);
        case DeleteProviders(ids) =>
          providers := providers - ids;
      }
    }

    /** The AFTER ROW triggers of a statement that has been applied to the tables `before`. */
    method FireTriggers(before: Sources, stmt: Statement) returns (ok: bool)
      requires Src() == Applied(before, stmt)
      modifies this`lines
      ensures ok == RefreshSet(Src(), old(lines), Visited(before, stmt)).Done?
      ensures ok ==> lines == RefreshSet(Src(), old(lines), Visited(before, stmt)).state
    {
      hide RefreshSet;
      match stmt {
        case InsertRecords(rows) =>
          ok := RefreshEach(rows.Keys);
        case UpdateRecords(rows) =>
          ok := RefreshEach(rows.Keys * before.records.Keys);
        case InsertStores(rows) =>
          ok := FireStoreRows(before.stores, rows.Keys);
        case UpdateStores(cols, rows) =>
          if !(cols !! STORE_WATCHED) {
            ok := FireStoreRows(before.stores, rows.Keys * before.stores.Keys);
          } else {
            ok := RefreshEach({});
          }
        case DeleteStores(ids) =>
          ok := FireStoreRows(before.stores, ids * before.stores.Keys);
        case UpdateWarehouses(cols, rows) =>
          if !(cols !! WAREHOUSE_WATCHED) {
            ok := FireLookupRows(map w | w in rows.Keys * before.warehouses.Keys :: RecordsOfWarehouse(records, w));
          } else {
            ok := RefreshEach({});
          }
        case UpdateProviders(cols, rows) =>
          if !(cols !! PROVIDER_WATCHED) {
            ok := FireLookupRows(map p | p in rows.Keys * before.providers.Keys :: RecordsOfProvider(records, p));
          } else {
            ok := RefreshEach({});
          }
        case _ =>
          ok := RefreshEach({});
      }
    }

    /** Runs one statement: constraints, the change itself, then the row triggers, or a rollback. */
    method Execute(stmt: Statement) returns (ok: bool)
      modifies this
      ensures ok == Step(old(Contents()), stmt).Done?
      ensures Contents() == if ok then Step(old(Contents()), stmt).state else old(Contents())
    {
      hide Admissible, Applied, Visited, LinesKept, RefreshSet;
      var before, lines0 := Src(), lines;
      if !Admissible(before, stmt) {
        return false;
      }
      ApplyRows(stmt);
      ok := FireTriggers(before, stmt);
      if !ok {
        records, warehouses, providers, stores := before.records, before.warehouses, before.providers, before.stores;
        lines := lines0;
      }
    }

    /** The refresh of every record that ends the migration. */
    method Backfill() returns (ok: bool)
      modifies this
      ensures ok == FullRefresh(old(Contents())).Done?
      ensures Contents() == if ok then FullRefresh(old(Contents())).state else old(Contents())
    {
      var lines0 := lines;
      ok := RefreshEach(records.Keys);
      if !ok {
        lines := lines0;
      }
    }
  }
}
