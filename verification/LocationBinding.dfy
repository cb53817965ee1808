/** One item and batch per location: the triggers on `stocks` that bind, rebind, reject and unbind
    locations, in two variants. As shipped, the unbinding trigger is declared FOR EACH STATEMENT, where OLD
    and NEW are null; as meant, it runs for each row. */
module LocationBinding {
  import opened Sql
  import opened MapSums

  type Id = int

  datatype Binding = Binding(item: Option<Id>, batch: Option<Id>) {
    /** The insert trigger takes a location with either column null for unbound. */
    predicate Complete() {
      item.Some? && batch.Some?
    }
  }

  const UNBOUND := Binding(None, None)

  datatype Stock = Stock(location: Id, item: Id, batch: Option<Id>, qty: int)
  datatype State = State(locations: map<Id, Binding>, stocks: map<Id, Stock>)

  /** The SQL comparison column = l: nothing equals null. */
  predicate Equals(column: Id, l: Option<Id>) {
    Some(column) == l
  }

  /** The rows WHERE location_id = l, and COALESCE(SUM(qty), 0) over them. */
  function QtyWhere(stocks: map<Id, Stock>, l: Option<Id>): map<Id, int> {
    map s | s in stocks && Equals(stocks[s].location, l) :: stocks[s].qty
  }

  /** UPDATE locations SET current_item_id = .., current_batch_id = .. WHERE id = l */
  function BindWhere(locations: map<Id, Binding>, l: Option<Id>, b: Binding): map<Id, Binding> {
    map k | k in locations :: if Equals(k, l) then b else locations[k]
  }

  /** The same for one location that is not null. */
  function QtyAt(stocks: map<Id, Stock>, l: Id): map<Id, int> {
    map s | s in stocks && stocks[s].location == l :: stocks[s].qty
  }

  ghost function LocationQty(stocks: map<Id, Stock>, l: Id): int {
    Sum(QtyAt(stocks, l))
  }

  function SetBinding(locations: map<Id, Binding>, l: Id, b: Binding): map<Id, Binding> {
    if l in locations then locations[l := b] else locations
  }

  lemma WhereOneLocation(stocks: map<Id, Stock>, locations: map<Id, Binding>, l: Id, b: Binding)
    ensures QtyWhere(stocks, Some(l)) == QtyAt(stocks, l)
    ensures BindWhere(locations, Some(l), b) == SetBinding(locations, l, b)
  {
  }

  predicate ForeignKeysHold(st: State) {
    forall s :: s in st.stocks ==> st.stocks[s].location in st.locations
  }

  /** The unique keys of stocks: one row per (item, location, batch), a null batch included. */
  predicate SlotsUnique(stocks: map<Id, Stock>) {
    forall a, b :: a in stocks && b in stocks && a != b ==>
      !(stocks[a].item == stocks[b].item && stocks[a].location == stocks[b].location &&
        stocks[a].batch == stocks[b].batch)
  }

  // ---------------------------------------------------------------- the triggers

  /** enforce_single_item_batch_per_location, before one row is inserted. */
  ghost function Enforce(st: State, row: Stock): Outcome<map<Id, Binding>> {
    var loc := if row.location in st.locations then st.locations[row.location] else UNBOUND;
    if loc.item.None? || loc.batch.None? then
      if row.batch.None? then Aborted
      else Done(SetBinding(st.locations, row.location, Binding(Some(row.item), row.batch)))
    else if row.item != loc.item.value || row.batch != loc.batch then
      if LocationQty(st.stocks, row.location) != 0 then Aborted
      else if row.batch.None? then Aborted
      else Done(SetBinding(st.locations, row.location, Binding(Some(row.item), row.batch)))
    else Done(st.locations)
  }

  /** auto_unbind_location_when_empty, for the location l = COALESCE(OLD.location_id, NEW.location_id). */
  ghost function AutoUnbind(st: State, l: Option<Id>): map<Id, Binding> {
    if Sum(QtyWhere(st.stocks, l)) == 0 then BindWhere(st.locations, l, UNBOUND) else st.locations
  }

  datatype Unbinding = PerStatement | PerRow

  /** All firings of the unbinding trigger after an UPDATE or DELETE of the rows `old_`. */
  ghost function FireUnbind(u: Unbinding, st: State, old_: map<Id, Stock>): map<Id, Binding> {
    match u
    case PerStatement => AutoUnbind(st, None)
    case PerRow =>
      map l | l in st.locations ::
        if (exists s :: s in old_ && old_[s].location == l) && LocationQty(st.stocks, l) == 0
        then UNBOUND else st.locations[l]
  }

  // ---------------------------------------------------------------- statements

  /** `newRows` of an INSERT come in the order in which the statement processes them. */
  datatype Statement =
    | Insert(newRows: seq<(Id, Stock)>)
    | Update(rows: map<Id, Stock>)
    | Delete(ids: set<Id>)

  /** One inserted row: its BEFORE trigger, then the constraints. */
  ghost function InsertRow(st: State, id: Id, row: Stock): Outcome<State> {
    match Enforce(st, row)
    case Aborted => Aborted
    case Done(locations) =>
      if id in st.stocks || row.location !in locations || !SlotsUnique(st.stocks[id := row]) then Aborted
      else Done(State(locations, st.stocks[id := row]))
  }

  /** A row trigger sees the rows that the same statement inserted before it. */
  ghost function InsertRows(st: State, rows: seq<(Id, Stock)>): Outcome<State>
    decreases |rows|
  {
    if rows == [] then Done(st) else
    match InsertRow(st, rows[0].0, rows[0].1)
    case Aborted => Aborted
    case Done(st') => InsertRows(st', rows[1..])
  }

  /** The stock rows after an UPDATE or a DELETE, and the rows it touches. */
  function Changed(stocks: map<Id, Stock>, stmt: Statement): map<Id, Stock> {
    match stmt
    case Insert(_) => stocks
    case Update(rows) => map s | s in stocks :: if s in rows then rows[s] else stocks[s]
    case Delete(ids) => stocks - ids
  }

  function Touched(stocks: map<Id, Stock>, stmt: Statement): map<Id, Stock> {
    match stmt
    case Insert(_) => map[]
    case Update(rows) => map s | s in stocks && s in rows :: stocks[s]
    case Delete(ids) => map s | s in stocks && s in ids :: stocks[s]
  }

  /** One statement with its triggers; any failure undoes it all. */
  ghost function Step(u: Unbinding, st: State, stmt: Statement): Outcome<State> {
    if stmt.Insert? then InsertRows(st, stmt.newRows) else
    var st' := st.(stocks := Changed(st.stocks, stmt));
    if !ForeignKeysHold(st') || !SlotsUnique(st'.stocks) then Aborted
    else Done(st'.(locations := FireUnbind(u, st', Touched(st.stocks, stmt))))
  }

  ghost function After(u: Unbinding, st: State, stmt: Statement): State {
    var s := Step(u, st, stmt);
    if s.Done? then s.state else st
  }

  ghost function Run(u: Unbinding, st: State, stmts: seq<Statement>): State
    decreases |stmts|
  {
    if stmts == [] then st else Run(u, After(u, st, stmts[0]), stmts[1..])
  }

  /** Which statements of a run are accepted. */
  ghost function Accepted(u: Unbinding, st: State, stmts: seq<Statement>): seq<bool>
    decreases |stmts|
  {
    if stmts == [] then []
    else [Step(u, st, stmts[0]).Done?] + Accepted(u, After(u, st, stmts[0]), stmts[1..])
  }

  // ---------------------------------------------------------------- the two unbinding variants

  /** As shipped, the unbinding trigger never changes a location: a null location matches no stock row, so its sum is
      zero and the UPDATE runs, but it matches no location row either. */
  lemma ShippedUnbindDoesNothing(st: State, old_: map<Id, Stock>)
    ensures Sum(QtyWhere(st.stocks, None)) == 0
    ensures FireUnbind(PerStatement, st, old_) == st.locations
  {
    var rows := QtyWhere(st.stocks, None);
    assert forall s :: s !in rows;
    SumOfNonNegative(rows);
  }

  /** Two bindings that no insert can tell apart. */
  predicate SameBinding(a: Binding, b: Binding) {
    a == b || (!a.Complete() && !b.Complete())
  }

  /** The relation between a run with per-row unbinding (`a`) and the shipped one (`b`): the same stock rows, and
      the same bindings except that `b` may still bind a location whose quantity is zero. */
  ghost predicate Related(a: State, b: State) {
    && a.stocks == b.stocks && a.locations.Keys == b.locations.Keys
    && forall l :: l in a.locations ==>
         || SameBinding(a.locations[l], b.locations[l])
         || (!a.locations[l].Complete() && LocationQty(a.stocks, l) == 0)
  }

  /** The statement takes some location from quantity zero to another quantity. */
  ghost predicate Refills(st: State, stmt: Statement, l: Id) {
    LocationQty(st.stocks, l) == 0 && LocationQty(Changed(st.stocks, stmt), l) != 0
  }

  /** No statement of the run, on the way of the two protocols from `a` and `b`, refills a location that only the
      shipped one still binds. */
  ghost predicate NoStaleRefill(a: State, b: State, stmts: seq<Statement>)
    decreases |stmts|
  {
    stmts == [] ||
    ((Step(PerRow, a, stmts[0]).Done? ==> forall l :: Stale(a, b, l) ==> !Refills(a, stmts[0], l)) &&
     NoStaleRefill(After(PerRow, a, stmts[0]), After(PerStatement, b, stmts[0]), stmts[1..]))
  }

  /** The two runs stay related after every statement. */
  ghost predicate RelatedThroughout(a: State, b: State, stmts: seq<Statement>)
    decreases |stmts|
  {
    Related(a, b) &&
    (stmts == [] || RelatedThroughout(After(PerRow, a, stmts[0]), After(PerStatement, b, stmts[0]), stmts[1..]))
  }

  ghost predicate NeverRefills(u: Unbinding, st: State, stmts: seq<Statement>)
    decreases |stmts|
  {
    stmts == [] ||
    ((forall l :: l in st.locations ==> !Refills(st, stmts[0], l)) &&
     NeverRefills(u, After(u, st, stmts[0]), stmts[1..]))
  }

  lemma InsertOne(st: State, id: Id, row: Stock)
    ensures InsertRows(st, [(id, row)]) == InsertRow(st, id, row)
  {
    var rows := [(id, row)];
    assert rows[0] == (id, row) && rows[1..] == [];
    var first := InsertRow(st, id, row);
    if first.Done? {
      assert InsertRows(first.state, []) == Done(first.state);
    }
  }

  /** Inserting changes the quantity of one location by the row's quantity. */
  lemma InsertedQty(stocks: map<Id, Stock>, id: Id, row: Stock, l: Id)
    requires id !in stocks
    ensures LocationQty(stocks[id := row], l) ==
      LocationQty(stocks, l) + if l == row.location then row.qty else 0
  {
    var before, after := QtyAt(stocks, l), QtyAt(stocks[id := row], l);
    if l == row.location {
      SumRemove(after, id);
      assert after - {id} == before;
    } else {
      assert after == before;
    }
  }

  lemma InsertRowAgrees(a: State, b: State, id: Id, row: Stock)
    requires Related(a, b)
    ensures InsertRow(a, id, row).Done? <==> InsertRow(b, id, row).Done?
    ensures InsertRow(a, id, row).Done? ==>
      Related(InsertRow(a, id, row).state, InsertRow(b, id, row).state)
  {
    if InsertRow(a, id, row).Done? {
      forall l ensures LocationQty(a.stocks[id := row], l) ==
        LocationQty(a.stocks, l) + if l == row.location then row.qty else 0
      {
        InsertedQty(a.stocks, id, row, l);
      }
    }
  }

  lemma {:induction false} InsertRowsAgree(a: State, b: State, rows: seq<(Id, Stock)>)
    requires Related(a, b)
    ensures InsertRows(a, rows).Done? <==> InsertRows(b, rows).Done?
    ensures InsertRows(a, rows).Done? ==> Related(InsertRows(a, rows).state, InsertRows(b, rows).state)
    decreases |rows|
  {
    if rows != [] {
      InsertRowAgrees(a, b, rows[0].0, rows[0].1);
      var next := InsertRow(a, rows[0].0, rows[0].1);
      if next.Done? {
        InsertRowsAgree(next.state, InsertRow(b, rows[0].0, rows[0].1).state, rows[1..]);
      }
    }
  }

  /** The location is bound in the shipped run only. */
  ghost predicate Stale(a: State, b: State, l: Id) {
    l in a.locations && l in b.locations && !a.locations[l].Complete() && b.locations[l].Complete()
  }

  /** Two related states accept the same statements, whatever is refilled. */
  lemma StepsAccepted(a: State, b: State, stmt: Statement)
    requires Related(a, b)
    ensures Step(PerRow, a, stmt).Done? <==> Step(PerStatement, b, stmt).Done?
  {
    if stmt.Insert? {
      InsertRowsAgree(a, b, stmt.newRows);
    }
  }

  /** An accepted statement keeps them related exactly when it refills no location that only the shipped protocol binds. */
  lemma StepAgreesExactly(a: State, b: State, stmt: Statement)
    requires Related(a, b) && Step(PerRow, a, stmt).Done?
    ensures Related(After(PerRow, a, stmt), After(PerStatement, b, stmt)) <==>
      forall l :: Stale(a, b, l) ==> !Refills(a, stmt, l)
  {
    StepsAccepted(a, b, stmt);
    if stmt.Insert? {
      InsertRowsAgree(a, b, stmt.newRows);
    } else {
      var a', b' := After(PerRow, a, stmt), After(PerStatement, b, stmt);
      forall l | l in a.locations
        ensures SameBinding(a'.locations[l], b'.locations[l]) ||
                (!a'.locations[l].Complete() && LocationQty(a'.stocks, l) == 0) <==>
                !(Stale(a, b, l) && Refills(a, stmt, l))
      {
        UnbindStep(a, b, stmt, l);
      }
    }
  }

  /** What an UPDATE or DELETE makes of one location in the two protocols. */
  lemma UnbindStep(a: State, b: State, stmt: Statement, l: Id)
    requires Related(a, b) && !stmt.Insert? && Step(PerRow, a, stmt).Done? && l in a.locations
    ensures var a', b' := After(PerRow, a, stmt), After(PerStatement, b, stmt);
      && a'.stocks == b'.stocks == Changed(a.stocks, stmt) && l in a'.locations && l in b'.locations
      && b'.locations[l] == b.locations[l]
      && (a'.locations[l] == a.locations[l] || (a'.locations[l] == UNBOUND && LocationQty(a'.stocks, l) == 0))
  {
    ShippedUnbindDoesNothing(b.(stocks := Changed(b.stocks, stmt)), Touched(b.stocks, stmt));
  }

  /** The bisimulation: the shipped protocol and the one that does unbind stay related through a run exactly when no UPDATE
      or DELETE refills a location that only the shipped one still binds. They then accept the same statements and
      agree on every location whose quantity is not zero. Nothing is assumed about signs, batches or what an UPDATE
      rewrites. */
  lemma {:induction false} UnbindEquivalence(a: State, b: State, stmts: seq<Statement>)
    requires Related(a, b)
    ensures RelatedThroughout(a, b, stmts) <==> NoStaleRefill(a, b, stmts)
    ensures NoStaleRefill(a, b, stmts) ==>
      && Accepted(PerRow, a, stmts) == Accepted(PerStatement, b, stmts)
      && Related(Run(PerRow, a, stmts), Run(PerStatement, b, stmts))
    decreases |stmts|
  {
    hide Step, Related, Stale, Refills;
    if stmts != [] {
      StepsAccepted(a, b, stmts[0]);
      var a', b' := After(PerRow, a, stmts[0]), After(PerStatement, b, stmts[0]);
      if Step(PerRow, a, stmts[0]).Done? {
        StepAgreesExactly(a, b, stmts[0]);
      }
      if Related(a', b') {
        UnbindEquivalence(a', b', stmts[1..]);
      }
    }
  }

  lemma {:induction false} NoRefillNoStaleRefill(a: State, b: State, stmts: seq<Statement>)
    requires Related(a, b) && NeverRefills(PerStatement, b, stmts)
    ensures NoStaleRefill(a, b, stmts)
    decreases |stmts|
  {
    if stmts != [] {
      forall l | Stale(a, b, l) ensures !Refills(a, stmts[0], l) {
        assert !Refills(b, stmts[0], l);
      }
      hide Step, Stale, Refills;
      StepsAccepted(a, b, stmts[0]);
      if Step(PerRow, a, stmts[0]).Done? {
        StepAgreesExactly(a, b, stmts[0]);
      }
      NoRefillNoStaleRefill(After(PerRow, a, stmts[0]), After(PerStatement, b, stmts[0]), stmts[1..]);
    }
  }

  /** The same, from one starting state. */
  lemma UnbindNeverMatters(st: State, stmts: seq<Statement>)
    requires NeverRefills(PerStatement, st, stmts)
    ensures Accepted(PerRow, st, stmts) == Accepted(PerStatement, st, stmts)
    ensures var a, b := Run(PerRow, st, stmts), Run(PerStatement, st, stmts);
      && a.stocks == b.stocks && a.locations.Keys == b.locations.Keys
      && forall l :: l in a.locations && LocationQty(a.stocks, l) != 0 ==>
           SameBinding(a.locations[l], b.locations[l])
  {
    NoRefillNoStaleRefill(st, st, stmts);
    UnbindEquivalence(st, st, stmts);
  }

  /** Deletes, decreases, and increases on rows of non-empty locations do not refill anything. */
  lemma OrdinaryChangesNeverRefill(st: State, stmt: Statement, l: Id)
    requires NonNegative(st.stocks) && !stmt.Insert?
    requires stmt.Update? ==> forall s :: s in stmt.rows && s in st.stocks ==>
      && stmt.rows[s].qty >= 0 && stmt.rows[s].location == st.stocks[s].location
      && (stmt.rows[s].qty > st.stocks[s].qty ==> LocationQty(st.stocks, st.stocks[s].location) != 0)
    ensures !Refills(st, stmt, l)
  {
    if LocationQty(st.stocks, l) == 0 {
      EmptyMeansNoPositiveRow(st.stocks, l);
      var after := QtyAt(Changed(st.stocks, stmt), l);
      forall s | s in after ensures after[s] == 0 {
        assert s in st.stocks && st.stocks[s].location == l;
      }
      SumOfNonNegative(after);
    }
  }

  lemma {:induction false} SomeFreshInt(used: set<int>) returns (n: int)
    ensures forall m :: m in used ==> m < n
    decreases used
  {
    if used == {} {
      n := 0;
      assert forall m :: m !in used;
    } else {
      var m := SomeRow(used);
      n := SomeFreshInt(used - {m});
      n := if m < n then n else m + 1;
      forall k | k in used ensures k < n {
        assert k == m || k in used - {m};
      }
    }
  }

  ghost predicate AcceptSameInserts(a: State, b: State) {
    forall rows :: InsertRows(a, rows).Done? <==> InsertRows(b, rows).Done?
  }

  /** A stale location that holds stock lets an insert through in one run that the other rejects. */
  lemma StaleLocationSplits(a: State, b: State, l: Id)
    requires a.stocks == b.stocks && SlotsUnique(a.stocks)
    requires Stale(a, b, l) && LocationQty(a.stocks, l) != 0
    ensures !AcceptSameInserts(a, b)
  {
    var id := SomeFreshInt(a.stocks.Keys);
    var items := (set s | s in a.stocks :: a.stocks[s].item) + {b.locations[l].item.value};
    var item := SomeFreshInt(items);
    var row := Stock(l, item, Some(0), 1);
    forall s | s in a.stocks ensures a.stocks[s].item != item {
      assert a.stocks[s].item in items;
    }
    assert b.locations[l].item.value in items;
    assert SlotsUnique(a.stocks[id := row]);
    InsertOne(a, id, row);
    InsertOne(b, id, row);
  }

  /** When exactly an UPDATE or DELETE lets the two protocols drift apart: when it refills a location that
      only the shipped one still binds. */
  lemma RefillDecides(a: State, b: State, stmt: Statement)
    requires Related(a, b) && !stmt.Insert? && Step(PerRow, a, stmt).Done?
    ensures AcceptSameInserts(After(PerRow, a, stmt), After(PerStatement, b, stmt)) <==>
      !exists l :: Stale(a, b, l) && Refills(a, stmt, l)
  {
    var a', b' := After(PerRow, a, stmt), After(PerStatement, b, stmt);
    if l :| Stale(a, b, l) && Refills(a, stmt, l) {
      assert Stale(a', b', l);
      StaleLocationSplits(a', b', l);
    } else {
      StepAgreesExactly(a, b, stmt);
      forall rows {
        InsertRowsAgree(a', b', rows);
      }
    }
  }

  // ---------------------------------------------------------------- safety

  ghost predicate NonNegative(stocks: map<Id, Stock>) {
    forall s :: s in stocks ==> stocks[s].qty >= 0
  }

  /** The row is of the item and batch its location is bound to. */
  ghost predicate MatchesBinding(locations: map<Id, Binding>, row: Stock) {
    row.batch.Some? && row.location in locations &&
    locations[row.location] == Binding(Some(row.item), row.batch)
  }

  /** All positive rows of a location share one item and one batch: those it is bound to. */
  ghost predicate Safe(st: State) {
    forall s :: s in st.stocks && st.stocks[s].qty > 0 ==> MatchesBinding(st.locations, st.stocks[s])
  }

  /** What the callers must respect: no negative quantity, and a row may only gain quantity (or be rewritten)
      if it then matches the binding of its location. */
  ghost predicate Careful(st: State, stmt: Statement) {
    match stmt
    case Insert(rows) => forall i :: 0 <= i < |rows| ==> rows[i].1.qty >= 0
    case Delete(_) => true
    case Update(rows) =>
      forall s :: s in rows && s in st.stocks ==>
        && rows[s].qty >= 0
        && (|| (rows[s].(qty := st.stocks[s].qty) == st.stocks[s] && rows[s].qty <= st.stocks[s].qty)
            || MatchesBinding(st.locations, rows[s]))
  }

  ghost predicate CarefulRun(u: Unbinding, st: State, stmts: seq<Statement>)
    decreases |stmts|
  {
    stmts == [] || (Careful(st, stmts[0]) && CarefulRun(u, After(u, st, stmts[0]), stmts[1..]))
  }

  /** A location of quantity zero holds no positive row. */
  lemma EmptyMeansNoPositiveRow(stocks: map<Id, Stock>, l: Id)
    requires NonNegative(stocks) && LocationQty(stocks, l) == 0
    ensures forall s :: s in stocks && stocks[s].location == l ==> stocks[s].qty == 0
  {
    var rows := QtyAt(stocks, l);
    forall s | s in rows ensures rows[s] >= 0 {
      assert s in stocks;
    }
    SumOfNonNegative(rows);
    forall s | s in stocks && stocks[s].location == l ensures stocks[s].qty == 0 {
      assert s in QtyAt(stocks, l);
    }
  }

  lemma InsertRowKeepsSafe(st: State, id: Id, row: Stock)
    requires Safe(st) && NonNegative(st.stocks) && row.qty >= 0 && InsertRow(st, id, row).Done?
    ensures var st' := InsertRow(st, id, row).state; Safe(st') && NonNegative(st'.stocks)
  {
    if LocationQty(st.stocks, row.location) == 0 {
      EmptyMeansNoPositiveRow(st.stocks, row.location);
    }
  }

  lemma {:induction false} InsertRowsKeepSafe(st: State, rows: seq<(Id, Stock)>)
    requires Safe(st) && NonNegative(st.stocks) && Careful(st, Insert(rows)) && InsertRows(st, rows).Done?
    ensures var st' := InsertRows(st, rows).state; Safe(st') && NonNegative(st'.stocks)
    decreases |rows|
  {
    if rows != [] {
      InsertRowKeepsSafe(st, rows[0].0, rows[0].1);
      InsertRowsKeepSafe(InsertRow(st, rows[0].0, rows[0].1).state, rows[1..]);
    }
  }

  /** The statement writes no negative quantity, as the quantities of `stocks` never are. */
  ghost predicate WritesNonNegative(stmt: Statement) {
    match stmt
    case Insert(rows) => forall i :: 0 <= i < |rows| ==> rows[i].1.qty >= 0
    case Update(rows) => forall s :: s in rows ==> rows[s].qty >= 0
    case Delete(_) => true
  }

  /** Every row that an UPDATE leaves with stock is of the item and batch its location is bound to. Inserts and deletes have
      nothing to respect. */
  ghost predicate KeepsBindings(st: State, stmt: Statement) {
    stmt.Update? ==>
      forall s :: s in stmt.rows && s in st.stocks && stmt.rows[s].qty > 0 ==> MatchesBinding(st.locations, stmt.rows[s])
  }

  /** An UPDATE or DELETE that goes through leaves the binding of every location that then holds stock. */
  lemma StockedLocationsStayBound(u: Unbinding, st: State, stmt: Statement, s: Id)
    requires NonNegative(st.stocks) && WritesNonNegative(stmt) && !stmt.Insert? && Step(u, st, stmt).Done?
    requires s in Changed(st.stocks, stmt) && Changed(st.stocks, stmt)[s].qty > 0
    ensures var st' := After(u, st, stmt); var l := st'.stocks[s].location;
      l in st.locations && l in st'.locations && st'.locations[l] == st.locations[l]
  {
    var stocks' := Changed(st.stocks, stmt);
    var l := stocks'[s].location;
    if LocationQty(stocks', l) == 0 {
      EmptyMeansNoPositiveRow(stocks', l);
    }
    if u == PerStatement {
      ShippedUnbindDoesNothing(st.(stocks := stocks'), Touched(st.stocks, stmt));
    }
  }

  /** Exactly when an accepted statement keeps a safe state safe: inserts and deletes always do, and an UPDATE does if
      and only if every row it leaves with stock matches the binding of its location. */
  lemma StepKeepsSafe(u: Unbinding, st: State, stmt: Statement)
    requires Safe(st) && NonNegative(st.stocks) && WritesNonNegative(stmt) && Step(u, st, stmt).Done?
    ensures NonNegative(After(u, st, stmt).stocks)
    ensures Safe(After(u, st, stmt)) <==> KeepsBindings(st, stmt)
  {
    if stmt.Insert? {
      InsertRowsKeepSafe(st, stmt.newRows);
    } else {
      var st' := After(u, st, stmt);
      forall s | s in st'.stocks && st'.stocks[s].qty > 0
        ensures MatchesBinding(st'.locations, st'.stocks[s]) <==> MatchesBinding(st.locations, st'.stocks[s])
      {
        StockedLocationsStayBound(u, st, stmt, s);
      }
      assert st'.stocks == Changed(st.stocks, stmt);
      hide MatchesBinding, Step, After;
      if stmt.Update? {
        assert forall s :: s in stmt.rows && s in st.stocks ==> s in st'.stocks && st'.stocks[s] == stmt.rows[s];
      }
    }
  }

  ghost predicate SafeThroughout(u: Unbinding, st: State, stmts: seq<Statement>)
    decreases |stmts|
  {
    Safe(st) && (stmts == [] || SafeThroughout(u, After(u, st, stmts[0]), stmts[1..]))
  }

  /** Every accepted statement of the run keeps to the bindings it meets. */
  ghost predicate BindingsKept(u: Unbinding, st: State, stmts: seq<Statement>)
    decreases |stmts|
  {
    stmts == [] ||
    ((Step(u, st, stmts[0]).Done? ==> KeepsBindings(st, stmts[0])) && BindingsKept(u, After(u, st, stmts[0]), stmts[1..]))
  }

  /** Location safety over runs, with either unbinding: it holds throughout exactly when every accepted UPDATE of the run
      leaves stock only on rows that match the binding of their location. */
  lemma {:induction false} RunKeepsSafe(u: Unbinding, st: State, stmts: seq<Statement>)
    requires Safe(st) && NonNegative(st.stocks)
    requires forall i :: 0 <= i < |stmts| ==> WritesNonNegative(stmts[i])
    ensures SafeThroughout(u, st, stmts) <==> BindingsKept(u, st, stmts)
    decreases |stmts|
  {
    hide Step, Safe, NonNegative, KeepsBindings, WritesNonNegative;
    if stmts != [] {
      var st' := After(u, st, stmts[0]);
      if Step(u, st, stmts[0]).Done? {
        StepKeepsSafe(u, st, stmts[0]);
      }
      if Safe(st') {
        RunKeepsSafe(u, st', stmts[1..]);
      }
    }
  }

  lemma CarefulKeepsBindings(u: Unbinding, st: State, stmt: Statement)
    requires Safe(st) && NonNegative(st.stocks) && Careful(st, stmt)
    ensures var st' := After(u, st, stmt); Safe(st') && NonNegative(st'.stocks)
  {
    if stmt.Insert? && Step(u, st, stmt).Done? {
      InsertRowsKeepSafe(st, stmt.newRows);
    } else if Step(u, st, stmt).Done? {
      var stmt' := if stmt.Update? then Update(map s | s in stmt.rows && s in st.stocks :: stmt.rows[s]) else stmt;
      assert Changed(st.stocks, stmt') == Changed(st.stocks, stmt) && Touched(st.stocks, stmt') == Touched(st.stocks, stmt);
      StepKeepsSafe(u, st, stmt');
    }
  }

  /** In particular when quantity only grows on rows that match the binding. */
  lemma {:induction false} CarefulRunKeepsSafe(u: Unbinding, st: State, stmts: seq<Statement>)
    requires Safe(st) && NonNegative(st.stocks) && CarefulRun(u, st, stmts)
    ensures Safe(Run(u, st, stmts)) && NonNegative(Run(u, st, stmts).stocks)
    decreases |stmts|
  {
    if stmts != [] {
      CarefulKeepsBindings(u, st, stmts[0]);
      CarefulRunKeepsSafe(u, After(u, st, stmts[0]), stmts[1..]);
    }
  }

  /** The proviso is needed, for no trigger guards an UPDATE: once a location has been emptied and rebound,
      refilling the old row is accepted and mixes two items in it. */
  lemma StaleIncreaseMixesItems(u: Unbinding, st: State, l: Id)
    requires st.stocks == map[1 := Stock(l, 1, Some(10), 0), 2 := Stock(l, 2, Some(20), 3)]
    requires st.locations == map[l := Binding(Some(2), Some(20))]
    ensures Safe(st) && NonNegative(st.stocks)
    ensures var refill := Update(map[1 := Stock(l, 1, Some(10), 5)]);
      Step(u, st, refill).Done? && !Safe(After(u, st, refill))
  {
    var refill := Update(map[1 := Stock(l, 1, Some(10), 5)]);
    var st' := After(u, st, refill);
    assert Step(u, st, refill).Done?;
    assert st'.stocks[1].qty > 0 && st'.stocks[2].qty > 0;
    assert !MatchesBinding(st'.locations, st'.stocks[1]);
  }

  /** That state is reached by the protocol itself: fill a location, empty it, bind it to another item. */
  lemma StaleRowsAreReachable(u: Unbinding, st: State, l: Id)
    requires st == State(map[l := Binding(Some(1), Some(10))], map[1 := Stock(l, 1, Some(10), 5)])
    ensures var next := Stock(l, 2, Some(20), 3);
      var empty := After(u, st, Update(map[1 := Stock(l, 1, Some(10), 0)]));
      After(u, empty, Insert([(2, next)])) ==
        State(map[l := Binding(Some(2), Some(20))], map[1 := Stock(l, 1, Some(10), 0), 2 := next])
  {
    var empty := After(u, st, Update(map[1 := Stock(l, 1, Some(10), 0)]));
    assert empty.stocks == map[1 := Stock(l, 1, Some(10), 0)];
    EmptyRow(empty.stocks, l);
    InsertOne(empty, 2, Stock(l, 2, Some(20), 3));
    assert InsertRow(empty, 2, Stock(l, 2, Some(20), 3)).Done?;
  }

  lemma EmptyRow(stocks: map<Id, Stock>, l: Id)
    requires stocks == map[1 := Stock(l, 1, Some(10), 0)]
    ensures LocationQty(stocks, l) == 0
  {
    assert QtyAt(stocks, l) == map[1 := 0];
    SumRemove(map[1 := 0], 1);
    assert map[1 := 0] - {1} == map[];
  }

  // ---------------------------------------------------------------- the checked backfill

  function ItemsAt(stocks: map<Id, Stock>, l: Id): set<Id> {
    set s | s in stocks && stocks[s].location == l :: stocks[s].item
  }

  /** COUNT(DISTINCT batch_id) and MAX(batch_id) skip nulls. */
  function BatchesAt(stocks: map<Id, Stock>, l: Id): set<Id> {
    set s | s in stocks && stocks[s].location == l && stocks[s].batch.Some? :: stocks[s].batch.value
  }

  /** MAX over a group; null when there is nothing to take it of. */
  ghost predicate IsMax(m: Option<Id>, xs: set<Id>) {
    match m
    case None => xs == {}
    case Some(x) => x in xs && forall y :: y in xs ==> y <= x
  }

  /** The health check passes: no location counts two items or two batches. */
  ghost predicate Healthy(stocks: map<Id, Stock>) {
    forall l :: |ItemsAt(stocks, l)| <= 1 && |BatchesAt(stocks, l)| <= 1
  }

  /** The bindings that the UPDATE after the health check leaves: it skips locations without stock rows and those
      that are bound already. */
  ghost predicate IsBackfill(st: State, locations: map<Id, Binding>) {
    && locations.Keys == st.locations.Keys
    && forall l :: l in locations ==>
         if ItemsAt(st.stocks, l) == {} || st.locations[l].Complete() then locations[l] == st.locations[l]
         else IsMax(locations[l].item, ItemsAt(st.stocks, l)) && IsMax(locations[l].batch, BatchesAt(st.stocks, l))
  }

  lemma SingletonMax(xs: set<Id>, m: Option<Id>, x: Id)
    requires |xs| <= 1 && IsMax(m, xs) && x in xs
    ensures m == Some(x)
  {
    if m.value != x {
      assert {m.value, x} <= xs && |{m.value, x}| == 2;
      SubsetSize({m.value, x}, xs);
    }
  }

  lemma {:induction false} SubsetSize<T>(a: set<T>, b: set<T>)
    requires a <= b
    ensures |a| <= |b|
    decreases a
  {
    if a != {} {
      var x :| x in a;
      SubsetSize(a - {x}, b - {x});
    }
  }

  /** A backfill that passed its check on locations not yet bound starts the protocol safe exactly when no positive row
      lacks a batch: the check counts distinct batches without nulls, so such rows slip through. */
  lemma BackfillSafeExactly(st: State, locations: map<Id, Binding>)
    requires ForeignKeysHold(st) && Healthy(st.stocks) && IsBackfill(st, locations)
    requires forall l :: l in st.locations ==> !st.locations[l].Complete()
    ensures Safe(st.(locations := locations)) <==>
      forall s :: s in st.stocks && st.stocks[s].qty > 0 ==> st.stocks[s].batch.Some?
  {
    forall s | s in st.stocks && st.stocks[s].batch.Some?
      ensures MatchesBinding(locations, st.stocks[s])
    {
      var row := st.stocks[s];
      var l := row.location;
      assert row.item in ItemsAt(st.stocks, l) && row.batch.value in BatchesAt(st.stocks, l);
      SingletonMax(ItemsAt(st.stocks, l), locations[l].item, row.item);
      SingletonMax(BatchesAt(st.stocks, l), locations[l].batch, row.batch.value);
    }
  }

  /** Such a row passes the check, for COUNT(DISTINCT batch_id) does not count its null. */
  lemma UnbatchedStockSlipsThrough(st: State, locations: map<Id, Binding>)
    requires st == State(map[1 := UNBOUND], map[1 := Stock(1, 1, None, 5)])
    requires IsBackfill(st, locations)
    ensures ForeignKeysHold(st) && Healthy(st.stocks) && !Safe(st.(locations := locations))
  {
    forall l ensures |ItemsAt(st.stocks, l)| <= 1 && |BatchesAt(st.stocks, l)| <= 1 {
      SubsetSize(ItemsAt(st.stocks, l), {1});
      SubsetSize(BatchesAt(st.stocks, l), {1});
    }
    assert st.stocks[1].batch.None?;
    BackfillSafeExactly(st, locations);
  }
}
