/** Surcharge configurations: a province is charged as a whole or by listed cities, never both. Two triggers, one on
    each table, validate the rows a statement touched. */
module SurchargeConfig {
  import opened Sql

  type Id = nat

  datatype Mode = PROVINCE | CITIES
  datatype Config = Config(mode: Mode, amount: real, active: bool)
  datatype City = City(config: Id, cityCode: string, amount: real)
  datatype State = State(configs: map<Id, Config>, cities: map<Id, City>)

  datatype Statement =
    | InsertConfigs(newConfigs: map<Id, Config>)
    | UpdateConfigs(configs: map<Id, Config>)
    | DeleteConfigs(ids: set<Id>)
    | InsertCities(newCities: map<Id, City>)
    | UpdateCities(cities: map<Id, City>)
    | DeleteCities(ids: set<Id>)

  /** The tables once the statement has been applied to all its rows; deleting a config cascades to its cities. */
  function Applied(st: State, stmt: Statement): State {
    match stmt
    case InsertConfigs(rows) => st.(configs := st.configs + rows)
    case UpdateConfigs(rows) => st.(configs := map c | c in st.configs :: if c in rows then rows[c] else st.configs[c])
    case DeleteConfigs(ids) =>
      State(st.configs - ids, map c | c in st.cities && st.cities[c].config !in ids :: st.cities[c])
    case InsertCities(rows) => st.(cities := st.cities + rows)
    case UpdateCities(rows) => st.(cities := map c | c in st.cities :: if c in rows then rows[c] else st.cities[c])
    case DeleteCities(ids) => st.(cities := st.cities - ids)
  }

  /** Keys and checks of the two tables. */
  predicate ConstraintsHold(st: State) {
    && (forall c :: c in st.configs ==> st.configs[c].amount >= 0.0)
    && (forall c :: c in st.cities ==> st.cities[c].amount >= 0.0 && st.cities[c].config in st.configs)
    && (forall a, b :: a in st.cities && b in st.cities && a != b ==>
          !(st.cities[a].config == st.cities[b].config && st.cities[a].cityCode == st.cities[b].cityCode))
  }

  /** trg_validate_sp_surcharge_config_on_config for NEW = row c: returns, or raises. */
  predicate ConfigPasses(st: State, c: Id)
    requires c in st.configs
  {
    && (st.configs[c].mode == CITIES ==> st.configs[c].amount == 0.0)
    && (st.configs[c].mode == PROVINCE ==> |set x | x in st.cities && st.cities[x].config == c| == 0)
  }

  /** trg_validate_sp_surcharge_config_on_city for NEW = row c. */
  predicate CityPasses(st: State, c: Id)
    requires c in st.cities
  {
    st.cities[c].config in st.configs && st.configs[st.cities[c].config].mode == CITIES
  }

  /** All AFTER ROW firings of the statement: they see the tables after the whole statement. */
  predicate TriggersPass(before: State, after: State, stmt: Statement) {
    match stmt
    case InsertConfigs(rows) => forall c :: c in rows && c in after.configs ==> ConfigPasses(after, c)
    case UpdateConfigs(rows) => forall c :: c in rows && c in after.configs ==> ConfigPasses(after, c)
    case InsertCities(rows) => forall c :: c in rows && c in after.cities ==> CityPasses(after, c)
    case UpdateCities(rows) => forall c :: c in rows && c in after.cities ==> CityPasses(after, c)
    case _ => true
  }

  predicate FreshIds(st: State, stmt: Statement) {
    (stmt.InsertConfigs? ==> stmt.newConfigs.Keys !! st.configs.Keys) &&
    (stmt.InsertCities? ==> stmt.newCities.Keys !! st.cities.Keys)
  }

  function Step(st: State, stmt: Statement): Outcome<State> {
    var st' := Applied(st, stmt);
    if FreshIds(st, stmt) && ConstraintsHold(st') && TriggersPass(st, st', stmt) then Done(st') else Aborted
  }

  function Run(st: State, stmts: seq<Statement>): State
    decreases |stmts|
  {
    if stmts == [] then st else Run(if Step(st, stmts[0]).Done? then Step(st, stmts[0]).state else st, stmts[1..])
  }

  /** The exclusivity rule, over the whole tables. */
  ghost predicate Exclusive(st: State) {
    && (forall c :: c in st.configs && st.configs[c].mode == CITIES ==> st.configs[c].amount == 0.0)
    && (forall x :: x in st.cities ==> st.cities[x].config in st.configs && st.configs[st.cities[x].config].mode == CITIES)
  }

  /** In an exclusive state a province-mode config has no city row. */
  lemma ProvinceHasNoCity(st: State, c: Id)
    requires Exclusive(st) && c in st.configs && st.configs[c].mode == PROVINCE
    ensures forall x :: x in st.cities ==> st.cities[x].config != c
  {
  }

  lemma ConfigPassesMeans(st: State, c: Id)
    requires c in st.configs
    ensures ConfigPasses(st, c) <==>
      (st.configs[c].mode == CITIES ==> st.configs[c].amount == 0.0) &&
      (st.configs[c].mode == PROVINCE ==> forall x :: x in st.cities ==> st.cities[x].config != c)
  {
    var mine := set x | x in st.cities && st.cities[x].config == c;
    if x :| x in st.cities && st.cities[x].config == c {
      assert x in mine;
    } else {
      assert mine == {};
    }
  }

  /** From an exclusive state the two triggers, which only look at the touched rows of one table, accept a statement exactly
      when the whole result is exclusive. */
  lemma TriggersDecideExclusivity(st: State, stmt: Statement)
    requires Exclusive(st) && FreshIds(st, stmt)
    ensures Step(st, stmt).Done? <==> ConstraintsHold(Applied(st, stmt)) && Exclusive(Applied(st, stmt))
  {
    var st' := Applied(st, stmt);
    forall c | c in st'.configs ensures ConfigPasses(st', c) <==>
      (st'.configs[c].mode == CITIES ==> st'.configs[c].amount == 0.0) &&
      (st'.configs[c].mode == PROVINCE ==> forall x :: x in st'.cities ==> st'.cities[x].config != c)
    {
      ConfigPassesMeans(st', c);
    }
    hide ConfigPasses;
    if Exclusive(st') {
      forall c | c in st'.configs && st'.configs[c].mode == PROVINCE
        ensures forall x :: x in st'.cities ==> st'.cities[x].config != c
      {
        ProvinceHasNoCity(st', c);
      }
    } else if Step(st, stmt).Done? {
      TouchedRowsSuffice(st, stmt);
    }
  }

  lemma TouchedRowsSuffice(st: State, stmt: Statement)
    requires Exclusive(st) && Step(st, stmt).Done?
    ensures Exclusive(Applied(st, stmt))
  {
    var st' := Applied(st, stmt);
    forall c | c in st'.configs && st'.configs[c].mode == CITIES ensures st'.configs[c].amount == 0.0 {
    }
    forall x | x in st'.cities
      ensures st'.cities[x].config in st'.configs && st'.configs[st'.cities[x].config].mode == CITIES
    {
      var c := st'.cities[x].config;
      if st'.configs[c].mode == PROVINCE {
        ConfigPassesMeans(st', c);
      }
    }
  }

  /** Exclusivity over every run. */
  lemma {:induction false} RunKeepsExclusive(st: State, stmts: seq<Statement>)
    requires Exclusive(st)
    ensures Exclusive(Run(st, stmts))
    decreases |stmts|
  {
    if stmts != [] {
      if Step(st, stmts[0]).Done? {
        TouchedRowsSuffice(st, stmts[0]);
        RunKeepsExclusive(Step(st, stmts[0]).state, stmts[1..]);
      } else {
        RunKeepsExclusive(st, stmts[1..]);
      }
    }
  }

  // ---------------------------------------------------------------- on the columns

  /** The rows as a statement would leave them; deleting a config takes its cities along. */
  lemma RowsOnColumns(st: State, stmt: Statement, c: Id)
    ensures Step(st, stmt).Done? ==> Step(st, stmt).state == Applied(st, stmt)
    ensures FreshIds(st, stmt) ==>
      var st' := Applied(st, stmt);
      && (c in st'.configs <==>
            || (c in st.configs && !(stmt.DeleteConfigs? && c in stmt.ids))
            || (stmt.InsertConfigs? && c in stmt.newConfigs))
      && (c in st'.configs ==>
            && (stmt.InsertConfigs? && c in stmt.newConfigs ==> st'.configs[c] == stmt.newConfigs[c])
            && (stmt.UpdateConfigs? && c in stmt.configs ==> st'.configs[c] == stmt.configs[c])
            && (!(stmt.InsertConfigs? && c in stmt.newConfigs) && !(stmt.UpdateConfigs? && c in stmt.configs) ==>
                  st'.configs[c] == st.configs[c]))
      && (c in st'.cities <==>
            || (c in st.cities && !(stmt.DeleteCities? && c in stmt.ids)
                && !(stmt.DeleteConfigs? && st.cities[c].config in stmt.ids))
            || (stmt.InsertCities? && c in stmt.newCities))
      && (c in st'.cities ==>
            && (stmt.InsertCities? && c in stmt.newCities ==> st'.cities[c] == stmt.newCities[c])
            && (stmt.UpdateCities? && c in stmt.cities ==> st'.cities[c] == stmt.cities[c])
            && (!(stmt.InsertCities? && c in stmt.newCities) && !(stmt.UpdateCities? && c in stmt.cities) ==>
                  st'.cities[c] == st.cities[c]))
  {
    hide ConstraintsHold, TriggersPass;
  }

  /** Config `c`, or city `c`, or the two cities `c` and `d`, break a rule of the tables. */
  predicate Breaks(st: State, c: Id, d: Id) {
    || (c in st.configs && (st.configs[c].amount < 0.0 || (st.configs[c].mode == CITIES && st.configs[c].amount > 0.0)))
    || (c in st.cities && (st.cities[c].amount < 0.0 || st.cities[c].config !in st.configs ||
                           st.configs[st.cities[c].config].mode == PROVINCE))
    || (c in st.cities && d in st.cities && c != d &&
          st.cities[c].config == st.cities[d].config && st.cities[c].cityCode == st.cities[d].cityCode)
  }

  /** Exactly when a statement is accepted from an exclusive state. */
  lemma AcceptedOnColumns(st: State, stmt: Statement)
    requires Exclusive(st)
    ensures Step(st, stmt).Done? <==>
      && (stmt.InsertConfigs? ==> forall c :: c in stmt.newConfigs ==> c !in st.configs)
      && (stmt.InsertCities? ==> forall c :: c in stmt.newCities ==> c !in st.cities)
      && forall c, d :: !Breaks(Applied(st, stmt), c, d)
  {
    if FreshIds(st, stmt) {
      TriggersDecideExclusivity(st, stmt);
    }
    var st' := Applied(st, stmt);
    hide Step, Applied;
    if forall c, d :: !Breaks(st', c, d) {
      forall c | c in st'.configs || c in st'.cities ensures !Breaks(st', c, c) {
      }
      forall c, d | c in st'.cities && d in st'.cities && c != d ensures !Breaks(st', c, d) {
      }
    }
  }

  class SurchargeDb {
    var configs: map<Id, Config>
    var cities: map<Id, City>

    function Contents(): State
      reads this
    {
      State(configs, cities)
    }

    /** One statement: the change, its constraints, then the row triggers one by one; a RAISE rolls it back. */
    method Execute(stmt: Statement) returns (ok: bool)
      modifies this
      ensures ok == Step(old(Contents()), stmt).Done?
      ensures Contents() == if ok then Step(old(Contents()), stmt).state else old(Contents())
    {
      hide ConfigPasses, CityPasses, ConstraintsHold;
      var before := Contents();
      if !FreshIds(before, stmt) {
        return false;
      }
      match stmt {
        case InsertConfigs(rows) =>
          configs := configs + rows;
        case UpdateConfigs(rows) =>
          configs := map c | c in configs :: if c in rows then rows[c] else configs[c];
        case DeleteConfigs(ids) =>
          configs := configs - ids;
          cities := map c | c in cities && cities[c].config !in ids :: cities[c];
        case InsertCities(rows) =>
          cities := cities + rows;
        case UpdateCities(rows) =>
          cities := map c | c in cities :: if c in rows then rows[c] else cities[c];
        case DeleteCities(ids) =>
          cities := cities - ids;
      }
      ok := ConstraintsHold(Contents());
      if ok {
        match stmt {
          case InsertConfigs(rows) => ok := FireConfigRows(rows.Keys);
          case UpdateConfigs(rows) => ok := FireConfigRows(rows.Keys);
          case InsertCities(rows) => ok := FireCityRows(rows.Keys);
          case UpdateCities(rows) => ok := FireCityRows(rows.Keys);
          case _ =>
        }
      }
      if !ok {
        configs, cities := before.configs, before.cities;
      }
    }

    method FireConfigRows(rows: set<Id>) returns (ok: bool)
      ensures ok <==> forall c :: c in rows && c in configs ==> ConfigPasses(Contents(), c)
    {
      var todo := rows;
      while todo != {}
        invariant todo <= rows
        invariant forall c :: c in rows && c !in todo && c in configs ==> ConfigPasses(Contents(), c)
        decreases todo
      {
        var c := NextRow(todo);
        if c in configs && !ConfigPasses(Contents(), c) {
          return false;
        }
        todo := todo - {c};
      }
      return true;
    }

    method FireCityRows(rows: set<Id>) returns (ok: bool)
      ensures ok <==> forall c :: c in rows && c in cities ==> CityPasses(Contents(), c)
    {
      var todo := rows;
      while todo != {}
        invariant todo <= rows
        invariant forall c :: c in rows && c !in todo && c in cities ==> CityPasses(Contents(), c)
        decreases todo
      {
        var c := NextRow(todo);
        if c in cities && !CityPasses(Contents(), c) {
          return false;
        }
        todo := todo - {c};
      }
      return true;
    }
  }
}
