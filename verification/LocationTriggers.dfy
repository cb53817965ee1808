/** The location binding protocol as the database runs it: triggers that read and update `locations` while
    the rows of `stocks` change in place. */
module LocationTriggers {
  import opened Sql
  import opened MapSums
  import opened LocationBinding
  import opened LocationColumns

  class LocationDb {
    var locations: map<Id, Binding>
    var stocks: map<Id, Stock>

    function Contents(): State
      reads this
    {
      State(locations, stocks)
    }

    /** SELECT COALESCE(SUM(qty), 0) FROM stocks WHERE location_id = l */
    method SumQty(l: Option<Id>) returns (sum: int)
      ensures sum == Sum(QtyWhere(stocks, l))
    {
      sum := 0;
      ghost var rows := QtyWhere(stocks, l);
      var todo := set s | s in stocks && Equals(stocks[s].location, l);
      assert todo == rows.Keys;
      assert rows - todo == map[];
      while todo != {}
        invariant todo <= rows.Keys && sum == Sum(rows - todo)
        decreases todo
      {
        var s := NextRow(todo);
        SumRemove(rows - (todo - {s}), s);
        assert rows - (todo - {s}) - {s} == rows - todo;
        sum, todo := sum + stocks[s].qty, todo - {s};
      }
      assert rows - todo == rows;
    }

    /** enforce_single_item_batch_per_location: returns NEW, or raises. */
    method EnforceBinding(row: Stock) returns (ok: bool)
      modifies this`locations
      ensures ok == Enforce(old(Contents()), row).Done?
      ensures locations == if ok then Enforce(old(Contents()), row).state else old(locations)
      ensures row.location in old(locations) ==> ok == MayEnter(old(Contents()), row)
      ensures ok && row.location in locations ==>
        && BoundTo(locations[row.location], row.item, row.batch.value)
        && locations - {row.location} == old(locations) - {row.location}
    {
      if row.location in locations {
        EnforceExactly(Contents(), row);
      }
      var locItem, locBatch := None, None;
      if row.location in locations {
        locItem, locBatch := locations[row.location].item, locations[row.location].batch;
      }
      if locItem.None? || locBatch.None? {
        if row.batch.None? {
          return false;
        }
        BindTo(row);
        return true;
      }
      if row.item != locItem.value || row.batch != locBatch {
        var sum := SumQty(Some(row.location));
        WhereOneLocation(stocks, locations, row.location, UNBOUND);
        if sum != 0 {
          return false;
        }
        if row.batch.None? {
          return false;
        }
        BindTo(row);
      }
      return true;
    }

    /** UPDATE locations SET current_item_id = .., current_batch_id = .. WHERE id = .. */
    method BindTo(row: Stock)
      modifies this`locations
      ensures locations == SetBinding(old(locations), row.location, Binding(Some(row.item), row.batch))
    {
      if row.location in locations {
        locations := locations[row.location := Binding(Some(row.item), row.batch)];
      }
    }

    /** auto_unbind_location_when_empty, with OLD.location_id or, in a statement trigger, null. */
    method UnbindWhenEmpty(oldLocation: Option<Id>)
      modifies this`locations
      ensures locations == AutoUnbind(old(Contents()), oldLocation)
    {
      var sum := SumQty(oldLocation);
      if sum == 0 {
        var todo := locations.Keys;
        while todo != {}
          invariant todo <= locations.Keys == old(locations).Keys
          invariant forall k :: k in locations ==>
            locations[k] == if Equals(k, oldLocation) && k !in todo then UNBOUND else old(locations)[k]
          decreases todo
        {
          var k := NextRow(todo);
          if Equals(k, oldLocation) {
            locations := locations[k := UNBOUND];
          }
          todo := todo - {k};
        }
      }
    }

    /** INSERT INTO stocks: each row passes its BEFORE trigger and then its constraints. */
    method Insert(rows: seq<(Id, Stock)>) returns (ok: bool)
      modifies this
      ensures ok == InsertRows(old(Contents()), rows).Done?
      ensures Contents() == if ok then InsertRows(old(Contents()), rows).state else old(Contents())
    {
      var before := Contents();
      for i := 0 to |rows|
        invariant InsertRows(before, rows) == InsertRows(Contents(), rows[i..])
      {
        var (id, row) := rows[i];
        assert rows[i..][0] == rows[i] && rows[i..][1..] == rows[i + 1..];
        ok := EnforceBinding(row);
        if !ok || id in stocks || row.location !in locations || !SlotsUnique(stocks[id := row]) {
          locations, stocks := before.locations, before.stocks;
          return false;
        }
        stocks := stocks[id := row];
      }
      assert rows[|rows|..] == [];
      return true;
    }

    /** UPDATE or DELETE: the constraints, then the unbinding trigger as it is declared. */
    method Change(u: Unbinding, stmt: Statement) returns (ok: bool)
      requires !stmt.Insert?
      modifies this
      ensures ok == Step(u, old(Contents()), stmt).Done?
      ensures Contents() == After(u, old(Contents()), stmt)
    {
      var before := stocks;
      stocks := Changed(stocks, stmt);
      if !(forall s :: s in stocks ==> stocks[s].location in locations) || !SlotsUnique(stocks) {
        stocks := before;
        return false;
      }
      match u {
        case PerStatement =>
          UnbindWhenEmpty(None);
        case PerRow =>
          UnbindEach(Touched(before, stmt));
      }
      return true;
    }

    /** FOR EACH ROW: one firing per touched row, in any order. */
    method UnbindEach(old_: map<Id, Stock>)
      modifies this`locations
      ensures locations == FireUnbind(PerRow, old(Contents()), old_)
    {
      var todo := old_.Keys;
      ghost var done: map<Id, Stock> := map[];
      assert locations == FireUnbind(PerRow, Contents(), done);
      while todo != {}
        invariant todo <= old_.Keys && done == old_ - todo
        invariant locations == FireUnbind(PerRow, old(Contents()), done)
        decreases todo
      {
        var s := NextRow(todo);
        UnbindWhenEmpty(Some(old_[s].location));
        OneMoreFiring(old(Contents()), done, s, old_[s]);
        done := done[s := old_[s]];
        todo := todo - {s};
      }
      assert done == old_;
    }

    /** The migration's block: it raises exactly when two rows of some location are mixed, and otherwise runs the backfill. */
    method CheckAndBackfill() returns (ok: bool)
      modifies this`locations
      ensures ok == Healthy(stocks)
      ensures ok <==> forall a, b :: !Mixed(stocks, a, b)
      ensures ok ==> IsBackfill(old(Contents()), locations)
      ensures !ok ==> locations == old(locations)
    {
      HealthyExactly(stocks);
      hide Healthy, Mixed, IsBackfill;
      ok := CheckHealth();
      if ok {
        BackfillBindings();
      }
    }

    /** FOR r IN SELECT .. GROUP BY location_id HAVING .. LOOP RAISE EXCEPTION */
    method CheckHealth() returns (ok: bool)
      ensures ok == Healthy(stocks)
    {
      var groups := set s | s in stocks :: stocks[s].location;
      var todo := groups;
      while todo != {}
        invariant todo <= groups
        invariant forall l :: l in groups && l !in todo ==>
          |ItemsAt(stocks, l)| <= 1 && |BatchesAt(stocks, l)| <= 1
        decreases todo
      {
        var l := NextRow(todo);
        if |ItemsAt(stocks, l)| > 1 || |BatchesAt(stocks, l)| > 1 {
          return false;
        }
        todo := todo - {l};
      }
      forall l ensures |ItemsAt(stocks, l)| <= 1 && |BatchesAt(stocks, l)| <= 1 {
        if l !in groups {
          assert ItemsAt(stocks, l) == {} && BatchesAt(stocks, l) == {};
        }
      }
      return true;
    }

    /** UPDATE locations SET .. FROM (SELECT .. MAX(item_id), MAX(batch_id) .. GROUP BY location_id) WHERE not yet bound */
    method BackfillBindings()
      modifies this`locations
      ensures IsBackfill(old(Contents()), locations)
    {
      var groups := set s | s in stocks :: stocks[s].location;
      var todo := groups;
      while todo != {}
        invariant todo <= groups
        invariant locations.Keys == old(locations).Keys
        invariant forall l :: l in locations ==>
          if l !in groups || l in todo || old(locations)[l].Complete() then locations[l] == old(locations)[l]
          else IsMax(locations[l].item, ItemsAt(stocks, l)) && IsMax(locations[l].batch, BatchesAt(stocks, l))
        decreases todo
      {
        var l := NextRow(todo);
        var item := Max(ItemsAt(stocks, l));
        var batch := Max(BatchesAt(stocks, l));
        if l in locations && (locations[l].item.None? || locations[l].batch.None?) {
          locations := locations[l := Binding(item, batch)];
        }
        todo := todo - {l};
      }
      forall l | l in locations
        ensures ItemsAt(stocks, l) == {} <==> l !in groups
      {
        if l in groups {
          var s :| s in stocks && stocks[s].location == l;
          assert stocks[s].item in ItemsAt(stocks, l);
        }
      }
    }
  }

  /** One more row of a location changes the joint effect of the row triggers on that location only. */
  lemma OneMoreFiring(st: State, done: map<Id, Stock>, s: Id, row: Stock)
    requires s !in done
    ensures AutoUnbind(st.(locations := FireUnbind(PerRow, st, done)), Some(row.location)) ==
      FireUnbind(PerRow, st, done[s := row])
  {
    var one := AutoUnbind(st.(locations := FireUnbind(PerRow, st, done)), Some(row.location));
    var more := done[s := row];
    var so := st.(locations := FireUnbind(PerRow, st, done));
    WhereOneLocation(so.stocks, so.locations, row.location, UNBOUND);
    forall l | l in st.locations
      ensures one[l] == FireUnbind(PerRow, st, more)[l]
    {
      if l == row.location {
        assert s in more && more[s].location == l;
      } else if t :| t in done && done[t].location == l {
        assert t in more && more[t].location == l;
      } else {
        assert forall t :: t in more && more[t].location == l ==> t in done;
      }
    }
  }

  /** MAX over a group of ids. */
  method Max(xs: set<Id>) returns (m: Option<Id>)
    ensures IsMax(m, xs)
  {
    m := None;
    var todo := xs;
    while todo != {}
      invariant todo <= xs && IsMax(m, xs - todo)
      decreases todo
    {
      var x := NextRow(todo);
      if m.None? || x > m.value {
        m := Some(x);
      }
      assert xs - (todo - {x}) == (xs - todo) + {x};
      todo := todo - {x};
    }
    assert xs - todo == xs;
  }
}
