/** Location binding on the raw rows: which inserts, updates and deletes are accepted and what they leave, what the health
    check tells apart, and what unbinding is for. */
module LocationColumns {
  import opened Sql
  import opened MapSums
  import opened LocationBinding

  /** The location is bound, to this item and this batch. */
  predicate BoundTo(b: Binding, item: Id, batch: Id) {
    b.item == Some(item) && b.batch == Some(batch)
  }

  /** The location counts as unbound: one of its two columns is null. */
  predicate Unbound(b: Binding) {
    b.item == None || b.batch == None
  }

  predicate SameSlot(a: Stock, b: Stock) {
    a.item == b.item && a.location == b.location && a.batch == b.batch
  }

  /** What the trigger lets through: an unbound location takes any row with a batch, a bound one takes a row of its own item
      and batch, and a row of another only while the quantities of all its rows, of whatever sign, add up to zero. The
      row's own quantity does not matter. */
  ghost predicate MayEnter(st: State, row: Stock)
    requires row.location in st.locations
  {
    row.batch.Some? &&
    var b := st.locations[row.location];
    Unbound(b) || BoundTo(b, row.item, row.batch.value) || LocationQty(st.stocks, row.location) == 0
  }

  /** Exactly when the trigger accepts a row, and the binding it leaves. */
  lemma EnforceExactly(st: State, row: Stock)
    requires row.location in st.locations
    ensures Enforce(st, row).Done? <==> MayEnter(st, row)
    ensures Enforce(st, row).Done? ==>
      var locations' := Enforce(st, row).state;
      && locations'.Keys == st.locations.Keys && BoundTo(locations'[row.location], row.item, row.batch.value)
      && forall l :: l in locations' && l != row.location ==> locations'[l] == st.locations[l]
  {
  }

  /** A row for an unknown location passes the trigger, if it has a batch, but not the foreign key. */
  lemma UnknownLocation(st: State, id: Id, row: Stock)
    requires row.location !in st.locations
    ensures Enforce(st, row).Done? <==> row.batch.Some?
    ensures Enforce(st, row).Done? ==> Enforce(st, row).state == st.locations
    ensures InsertRow(st, id, row).Aborted?
  {
  }

  /** Exactly when an INSERT of one row is accepted, and what it leaves: the row, its location bound to the row's item and
      batch, and nothing else changed. */
  lemma InsertRowExactly(st: State, id: Id, row: Stock)
    requires SlotsUnique(st.stocks)
    ensures InsertRow(st, id, row).Done? <==>
      && id !in st.stocks && (forall s :: s in st.stocks ==> !SameSlot(st.stocks[s], row))
      && row.location in st.locations && MayEnter(st, row)
    ensures InsertRow(st, id, row).Done? ==>
      var st' := InsertRow(st, id, row).state;
      && st'.stocks == st.stocks[id := row]
      && st'.locations.Keys == st.locations.Keys && BoundTo(st'.locations[row.location], row.item, row.batch.value)
      && forall l :: l in st'.locations && l != row.location ==> st'.locations[l] == st.locations[l]
  {
    hide LocationQty;
    if row.location in st.locations {
      EnforceExactly(st, row);
      hide Enforce, MayEnter;
      if id !in st.stocks {
        SlotsAfter(st.stocks, id, row);
      }
      hide SlotsUnique;
    } else {
      UnknownLocation(st, id, row);
    }
  }

  lemma SlotsAfter(stocks: map<Id, Stock>, id: Id, row: Stock)
    requires SlotsUnique(stocks) && id !in stocks
    ensures SlotsUnique(stocks[id := row]) <==> forall s :: s in stocks ==> !SameSlot(stocks[s], row)
  {
    var stocks' := stocks[id := row];
    if s :| s in stocks && SameSlot(stocks[s], row) {
      assert s in stocks' && stocks'[s] == stocks[s] && stocks'[id] == row && s != id;
    }
  }

  /** The rows of one INSERT are seen one after the other: two that leave the location with stock of different items cannot come
      together. */
  lemma MixedInsertAborts(st: State, a: Id, first: Stock, b: Id, second: Stock)
    requires SlotsUnique(st.stocks) && first.location == second.location && first.item != second.item
    requires LocationQty(st.stocks, first.location) + first.qty != 0
    ensures InsertRows(st, [(a, first), (b, second)]).Aborted?
  {
    var rows := [(a, first), (b, second)];
    InsertRowExactly(st, a, first);
    if InsertRow(st, a, first).Done? {
      var st' := InsertRow(st, a, first).state;
      InsertedQty(st.stocks, a, first, first.location);
      assert rows[1..] == [(b, second)] && rows[0] == (a, first);
      assert InsertRows(st, rows) == InsertRows(st', rows[1..]);
      InsertOne(st', b, second);
      hide LocationQty, SlotsUnique;
      assert Enforce(st', second).Aborted?;
    }
  }

  // ---------------------------------------------------------------- UPDATE and DELETE

  /** The row is written or deleted by the statement. */
  predicate Hit(stmt: Statement, s: Id) {
    match stmt
    case Insert(_) => false
    case Update(rows) => s in rows
    case Delete(ids) => s in ids
  }

  /** Exactly when an UPDATE or DELETE is accepted, and the stock rows it leaves. No trigger checks bindings here. */
  lemma ChangeExactly(u: Unbinding, st: State, stmt: Statement)
    requires !stmt.Insert?
    ensures Step(u, st, stmt).Done? <==>
      var stocks' := Changed(st.stocks, stmt);
      && (forall s :: s in stocks' ==> stocks'[s].location in st.locations)
      && (forall a, b :: a in stocks' && b in stocks' && a != b ==> !SameSlot(stocks'[a], stocks'[b]))
    ensures Step(u, st, stmt).Done? ==> Step(u, st, stmt).state.stocks == Changed(st.stocks, stmt)
    ensures var stocks' := Changed(st.stocks, stmt);
      && (forall s :: s in stocks' <==> s in st.stocks && !(stmt.Delete? && Hit(stmt, s)))
      && (forall s :: s in stocks' ==> stocks'[s] == if stmt.Update? && Hit(stmt, s) then stmt.rows[s] else st.stocks[s])
  {
    hide FireUnbind;
  }

  /** Exactly which locations the row trigger unbinds: those that a written or deleted row was in, if their quantities then
      add up to zero. The shipped trigger unbinds none. */
  lemma UnbindsExactly(u: Unbinding, st: State, stmt: Statement, l: Id)
    requires !stmt.Insert? && Step(u, st, stmt).Done? && l in st.locations
    ensures var st' := Step(u, st, stmt).state;
      && st'.locations.Keys == st.locations.Keys
      && st'.locations[l] ==
           if u == PerRow && (exists s :: Hit(stmt, s) && s in st.stocks && st.stocks[s].location == l) &&
              LocationQty(st'.stocks, l) == 0
           then Binding(None, None) else st.locations[l]
  {
    hide LocationQty;
    var stocks' := Changed(st.stocks, stmt);
    if u == PerStatement {
      ShippedUnbindDoesNothing(st.(stocks := stocks'), Touched(st.stocks, stmt));
    }
    var touched := Touched(st.stocks, stmt);
    assert forall s :: s in touched <==> Hit(stmt, s) && s in st.stocks;
    assert forall s :: s in touched ==> touched[s] == st.stocks[s];
  }

  // ---------------------------------------------------------------- what unbinding is for

  /** A location that counts as bound holds stock. */
  ghost predicate BoundHoldsStock(st: State) {
    forall l :: l in st.locations && !Unbound(st.locations[l]) ==> LocationQty(st.stocks, l) != 0
  }

  lemma PositiveRowMeansStock(stocks: map<Id, Stock>, s: Id)
    requires NonNegative(stocks) && s in stocks && stocks[s].qty > 0
    ensures LocationQty(stocks, stocks[s].location) != 0
  {
    if LocationQty(stocks, stocks[s].location) == 0 {
      EmptyMeansNoPositiveRow(stocks, stocks[s].location);
    }
  }

  lemma StockMeansPositiveRow(stocks: map<Id, Stock>, l: Id) returns (s: Id)
    requires NonNegative(stocks) && LocationQty(stocks, l) != 0
    ensures s in stocks && stocks[s].location == l && stocks[s].qty > 0
  {
    if t :| t in stocks && stocks[t].location == l && stocks[t].qty > 0 {
      s := t;
    } else {
      var rows := QtyAt(stocks, l);
      forall t | t in rows ensures rows[t] == 0 {
        assert t in stocks && stocks[t].location == l;
      }
      SumOfNonNegative(rows);
      assert false;
    }
  }

  /** With unbinding for each row, a bound location always holds stock, as long as inserts bring some. */
  lemma RowUnbindKeepsBoundStocked(st: State, stmt: Statement)
    requires BoundHoldsStock(st) && NonNegative(st.stocks) && WritesNonNegative(stmt)
    requires stmt.Insert? ==> forall i :: 0 <= i < |stmt.newRows| ==> stmt.newRows[i].1.qty > 0
    ensures BoundHoldsStock(After(PerRow, st, stmt)) && NonNegative(After(PerRow, st, stmt).stocks)
  {
    if stmt.Insert? {
      InsertsKeepBoundStocked(st, stmt.newRows);
    } else if Step(PerRow, st, stmt).Done? {
      var st' := After(PerRow, st, stmt);
      ChangeExactly(PerRow, st, stmt);
      forall l | l in st'.locations && !Unbound(st'.locations[l]) ensures LocationQty(st'.stocks, l) != 0 {
        UnbindsExactly(PerRow, st, stmt, l);
        if LocationQty(st'.stocks, l) == 0 {
          var s := StockMeansPositiveRow(st.stocks, l);
          assert !Hit(stmt, s) && s in st'.stocks && st'.stocks[s] == st.stocks[s];
          PositiveRowMeansStock(st'.stocks, s);
          assert false;
        }
      }
    }
  }

  lemma {:induction false} InsertsKeepBoundStocked(st: State, rows: seq<(Id, Stock)>)
    requires BoundHoldsStock(st) && NonNegative(st.stocks)
    requires forall i :: 0 <= i < |rows| ==> rows[i].1.qty > 0
    ensures InsertRows(st, rows).Done? ==>
      BoundHoldsStock(InsertRows(st, rows).state) && NonNegative(InsertRows(st, rows).state.stocks)
    decreases |rows|
  {
    if rows != [] && InsertRow(st, rows[0].0, rows[0].1).Done? {
      var id, row := rows[0].0, rows[0].1;
      var st' := InsertRow(st, id, row).state;
      forall l ensures LocationQty(st'.stocks, l) == LocationQty(st.stocks, l) + if l == row.location then row.qty else 0 {
        InsertedQty(st.stocks, id, row, l);
      }
      assert NonNegative(st'.stocks);
      assert st'.stocks[id].qty > 0;
      PositiveRowMeansStock(st'.stocks, id);
      InsertsKeepBoundStocked(st', rows[1..]);
    }
  }

  /** Emptying the one row of location 7. */
  const EMPTY_IT := Update(map[1 := Stock(7, 1, Some(10), 0)])

  lemma EmptyingIsAccepted(u: Unbinding, st: State)
    requires st == State(map[7 := Binding(Some(1), Some(10))], map[1 := Stock(7, 1, Some(10), 5)])
    ensures Step(u, st, EMPTY_IT).Done?
    ensures Step(u, st, EMPTY_IT).state.stocks == map[1 := Stock(7, 1, Some(10), 0)]
  {
    assert Changed(st.stocks, EMPTY_IT) == map[1 := Stock(7, 1, Some(10), 0)];
    ChangeExactly(u, st, EMPTY_IT);
    hide Step;
  }

  /** The shipped protocol does not: once emptied, a location stays bound. */
  lemma ShippedKeepsEmptyBound(st: State)
    requires st == State(map[7 := Binding(Some(1), Some(10))], map[1 := Stock(7, 1, Some(10), 5)])
    ensures BoundHoldsStock(st) && !BoundHoldsStock(After(PerStatement, st, EMPTY_IT))
    ensures After(PerRow, st, EMPTY_IT).locations == map[7 := Binding(None, None)]
  {
    hide Step, LocationQty;
    assert st.stocks[1].qty > 0;
    PositiveRowMeansStock(st.stocks, 1);
    EmptyRow(map[1 := Stock(7, 1, Some(10), 0)], 7);
    EmptyingIsAccepted(PerRow, st);
    EmptyingIsAccepted(PerStatement, st);
    UnbindsExactly(PerRow, st, EMPTY_IT, 7);
    UnbindsExactly(PerStatement, st, EMPTY_IT, 7);
    assert Hit(EMPTY_IT, 1);
  }

  // ---------------------------------------------------------------- the health check

  /** Two rows of one location that cannot stay together. */
  predicate Mixed(stocks: map<Id, Stock>, a: Id, b: Id) {
    && a in stocks && b in stocks && stocks[a].location == stocks[b].location
    && (|| stocks[a].item != stocks[b].item
        || (stocks[a].batch.Some? && stocks[b].batch.Some? && stocks[a].batch != stocks[b].batch))
  }

  lemma AtMostOne<T>(xs: set<T>)
    ensures |xs| <= 1 <==> forall x, y :: x in xs && y in xs ==> x == y
  {
    if |xs| <= 1 {
      forall x, y | x in xs && y in xs ensures x == y {
        SubsetSize({x, y}, xs);
      }
    } else {
      var x := SomeRow(xs);
      assert |xs - {x}| == |xs| - 1;
      var y := SomeRow(xs - {x});
      assert y in xs && x != y;
    }
  }

  lemma OneLocationHealthy(stocks: map<Id, Stock>, l: Id)
    ensures |ItemsAt(stocks, l)| <= 1 && |BatchesAt(stocks, l)| <= 1 <==>
      forall a, b :: Mixed(stocks, a, b) ==> stocks[a].location != l
  {
    var items, batches := ItemsAt(stocks, l), BatchesAt(stocks, l);
    AtMostOne(items);
    AtMostOne(batches);
    if a, b :| Mixed(stocks, a, b) && stocks[a].location == l {
      assert stocks[a].item in items && stocks[b].item in items;
      assert stocks[a].batch.Some? ==> stocks[a].batch.value in batches;
      assert stocks[b].batch.Some? ==> stocks[b].batch.value in batches;
    } else {
      forall x, y | x in items && y in items ensures x == y {
        var a :| a in stocks && stocks[a].location == l && stocks[a].item == x;
        var b :| b in stocks && stocks[b].location == l && stocks[b].item == y;
        assert !Mixed(stocks, a, b);
      }
      forall x, y | x in batches && y in batches ensures x == y {
        var a :| a in stocks && stocks[a].location == l && stocks[a].batch == Some(x);
        var b :| b in stocks && stocks[b].location == l && stocks[b].batch == Some(y);
        assert !Mixed(stocks, a, b);
      }
    }
  }

  /** Exactly which stocks pass the check: those where no two rows of one location are mixed. */
  lemma HealthyExactly(stocks: map<Id, Stock>)
    ensures Healthy(stocks) <==> forall a, b :: !Mixed(stocks, a, b)
  {
    forall l ensures |ItemsAt(stocks, l)| <= 1 && |BatchesAt(stocks, l)| <= 1 <==>
      forall a, b :: Mixed(stocks, a, b) ==> stocks[a].location != l
    {
      OneLocationHealthy(stocks, l);
    }
    assert forall a, b :: Mixed(stocks, a, b) ==> a in stocks;
    hide Mixed, ItemsAt, BatchesAt;
    if a, b :| Mixed(stocks, a, b) {
      var l := stocks[a].location;
      assert !(|ItemsAt(stocks, l)| <= 1 && |BatchesAt(stocks, l)| <= 1);
    }
  }

  /** What the backfill leaves, row by row: an unbound location is bound to the item of its rows and to the batch of those that
      have one; every other location keeps its binding. */
  lemma BackfillBinds(st: State, locations: map<Id, Binding>, l: Id)
    requires Healthy(st.stocks) && IsBackfill(st, locations) && l in st.locations
    ensures l in locations
    ensures (!Unbound(st.locations[l]) || forall s :: s in st.stocks ==> st.stocks[s].location != l) ==>
      locations[l] == st.locations[l]
    ensures Unbound(st.locations[l]) ==>
      forall s :: s in st.stocks && st.stocks[s].location == l ==>
        && locations[l].item == Some(st.stocks[s].item)
        && (st.stocks[s].batch.Some? ==> locations[l].batch == st.stocks[s].batch)
    ensures (&& Unbound(st.locations[l]) && (exists s :: s in st.stocks && st.stocks[s].location == l)
             && (forall s :: s in st.stocks && st.stocks[s].location == l ==> st.stocks[s].batch.None?)) ==>
      locations[l].batch == None
  {
    var items, batches := ItemsAt(st.stocks, l), BatchesAt(st.stocks, l);
    if s :| s in st.stocks && st.stocks[s].location == l {
      assert st.stocks[s].item in items;
    } else {
      assert items == {};
    }
    if Unbound(st.locations[l]) {
      forall s | s in st.stocks && st.stocks[s].location == l
        ensures locations[l].item == Some(st.stocks[s].item)
        ensures st.stocks[s].batch.Some? ==> locations[l].batch == st.stocks[s].batch
      {
        SingletonMax(items, locations[l].item, st.stocks[s].item);
        if st.stocks[s].batch.Some? {
          SingletonMax(batches, locations[l].batch, st.stocks[s].batch.value);
        }
      }
    }
  }
}
