/** Shipping stages become timestamps: the upgrade moves two values of `fulfillment_status` into two columns that it
    has just added, and the downgrade reads the stage off those columns again. */
module FulfillmentStages {
  import opened Sql

  type Id = nat
  type Time = int

  const SHIP_COMMITTED := "SHIP_COMMITTED"
  const SHIPPED := "SHIPPED"

  datatype Row = Row(status: Option<string>, updatedAt: Option<Time>,
                     shipCommittedAt: Option<Time>, shippedAt: Option<Time>)

  type Rows = map<Id, Row>

  // ---------------------------------------------------------------- the statements, row by row

  function Committed(r: Row, now: Time): Row {
    if r.status != Some(SHIP_COMMITTED) then r
    else Row(None, Some(now), Coalesce(r.shipCommittedAt, r.updatedAt), r.shippedAt)
  }

  /** Every expression of the SET list reads the row as it was, `shippedAt` included. */
  function Shipped(r: Row, now: Time): Row {
    if r.status != Some(SHIPPED) then r
    else Row(None, Some(now), Coalesce(r.shipCommittedAt, Coalesce(r.shippedAt, r.updatedAt)),
             Coalesce(r.shippedAt, r.updatedAt))
  }

  function BackToShipped(r: Row, now: Time): Row {
    if r.shippedAt.Some? then r.(status := Some(SHIPPED), updatedAt := Some(now)) else r
  }

  function BackToCommitted(r: Row, now: Time): Row {
    if r.shippedAt.None? && r.shipCommittedAt.Some?
    then r.(status := Some(SHIP_COMMITTED), updatedAt := Some(now)) else r
  }

  /** UPDATE order_fulfillment, over the whole table. */
  function Updated(rows: Rows, f: Row -> Row): Rows {
    map o | o in rows :: f(rows[o])
  }

  /** ck_order_fulfillment_status_no_ship_stage and ck_order_fulfillment_ship_time_order */
  predicate ChecksHold(rows: Rows) {
    forall o :: o in rows ==>
      && rows[o].status != Some(SHIP_COMMITTED) && rows[o].status != Some(SHIPPED)
      && (rows[o].shippedAt.Some? ==> rows[o].shipCommittedAt.Some?)
  }

  function Migrated(rows: Rows, now: Time): Rows {
    Updated(Updated(rows, r => Committed(r, now)), r => Shipped(r, now))
  }

  function Upgrade(rows: Rows, now: Time): Outcome<Rows> {
    if ChecksHold(Migrated(rows, now)) then Done(Migrated(rows, now)) else Aborted
  }

  /** The two columns are dropped at the end. */
  function Downgrade(rows: Rows, now: Time): Rows {
    Updated(Updated(Updated(rows, r => BackToShipped(r, now)), r => BackToCommitted(r, now)),
            (r: Row) => r.(shipCommittedAt := None, shippedAt := None))
  }

  // ---------------------------------------------------------------- properties

  /** The columns have just been added. */
  predicate NewColumns(rows: Rows) {
    forall o :: o in rows ==> rows[o].shipCommittedAt.None? && rows[o].shippedAt.None?
  }

  predicate InShipStage(r: Row) {
    r.status == Some(SHIP_COMMITTED) || r.status == Some(SHIPPED)
  }

  lemma StatusesDiffer()
    ensures SHIP_COMMITTED != SHIPPED
  {
    assert |SHIP_COMMITTED| != |SHIPPED|;
  }

  /** The two updates commute, whatever the columns hold. */
  lemma UpdatesCommute(rows: Rows, now: Time)
    ensures Updated(Updated(rows, r => Shipped(r, now)), r => Committed(r, now)) == Migrated(rows, now)
  {
  }

  /** Exactly when the new checks accept the table: only a row that had left the ship stages already can break them. With
      columns just added there is none. */
  lemma UpgradeSucceedsExactly(rows: Rows, now: Time)
    ensures Upgrade(rows, now).Done? <==>
      forall o :: o in rows && rows[o].shippedAt.Some? && rows[o].shipCommittedAt.None? ==>
        rows[o].status == Some(SHIPPED) || (rows[o].status == Some(SHIP_COMMITTED) && rows[o].updatedAt.Some?)
    ensures NewColumns(rows) ==> Upgrade(rows, now).Done?
  {
    StatusesDiffer();
    var after := Migrated(rows, now);
    forall o | o in rows
      ensures after[o] == Shipped(Committed(rows[o], now), now)
    {
    }
  }

  /** The statuses come back after upgrade and downgrade exactly when every row in a ship stage carries an `updatedAt`;
      a row without one silently loses its stage. */
  lemma StatusRoundTripExactly(rows: Rows, now: Time, later: Time)
    requires NewColumns(rows)
    ensures Upgrade(rows, now).Done?
    ensures var back := Downgrade(Upgrade(rows, now).state, later);
      && back.Keys == rows.Keys && NewColumns(back)
      && ((forall o :: o in rows ==> back[o].status == rows[o].status) <==>
          (forall o :: o in rows && InShipStage(rows[o]) ==> rows[o].updatedAt.Some?))
      && (forall o :: o in rows && !InShipStage(rows[o]) ==> back[o] == rows[o])
  {
    StatusesDiffer();
    UpgradeSucceedsExactly(rows, now);
    var back := Downgrade(Upgrade(rows, now).state, later);
    forall o | o in rows
      ensures back[o].status == rows[o].status <==> (InShipStage(rows[o]) ==> rows[o].updatedAt.Some?)
      ensures !InShipStage(rows[o]) ==> back[o] == rows[o]
    {
    }
  }

  // ---------------------------------------------------------------- on the columns

  /** Every row after the upgrade: a stage becomes the time of the row's last change, unless its column already held one; a
      shipped row is committed too, at its shipping time if it has no other. */
  lemma RowAfterUpgrade(rows: Rows, now: Time, o: Id)
    requires Upgrade(rows, now).Done? && o in rows
    ensures Upgrade(rows, now).state.Keys == rows.Keys
    ensures var old_, new_ := rows[o], Upgrade(rows, now).state[o];
      if old_.status == Some("SHIP_COMMITTED") then
        && new_.status == None && new_.updatedAt == Some(now) && new_.shippedAt == old_.shippedAt
        && (old_.shipCommittedAt.Some? ==> new_.shipCommittedAt == old_.shipCommittedAt)
        && (old_.shipCommittedAt.None? ==> new_.shipCommittedAt == old_.updatedAt)
      else if old_.status == Some("SHIPPED") then
        && new_.status == None && new_.updatedAt == Some(now)
        && (old_.shippedAt.Some? ==> new_.shippedAt == old_.shippedAt)
        && (old_.shippedAt.None? ==> new_.shippedAt == old_.updatedAt)
        && (old_.shipCommittedAt.Some? ==> new_.shipCommittedAt == old_.shipCommittedAt)
        && (old_.shipCommittedAt.None? ==> new_.shipCommittedAt == new_.shippedAt)
      else new_ == old_
  {
    StatusesDiffer();
  }

  /** Every row after the downgrade, whatever the columns hold: the stage is read off them, and they are gone. */
  lemma RowAfterDowngrade(rows: Rows, now: Time, o: Id)
    requires o in rows
    ensures Downgrade(rows, now).Keys == rows.Keys
    ensures Downgrade(rows, now)[o] ==
      if rows[o].shippedAt.Some? then Row(Some("SHIPPED"), Some(now), None, None)
      else if rows[o].shipCommittedAt.Some? then Row(Some("SHIP_COMMITTED"), Some(now), None, None)
      else rows[o]
  {
  }

  // ---------------------------------------------------------------- the database

  class FulfillmentDb {
    var rows: Rows

    /** UPDATE order_fulfillment .. WHERE fulfillment_status = 'SHIP_COMMITTED' */
    method MoveCommitted(now: Time)
      modifies this
      ensures rows == Updated(old(rows), r => Committed(r, now))
    {
      var todo := set o | o in rows && rows[o].status == Some(SHIP_COMMITTED);
      while todo != {}
        invariant rows.Keys == old(rows).Keys
        invariant forall o :: o in todo ==> o in rows && old(rows)[o].status == Some(SHIP_COMMITTED)
        invariant forall o :: o in rows ==> rows[o] == if o in todo then old(rows)[o] else Committed(old(rows)[o], now)
        decreases todo
      {
        var o := NextRow(todo);
        var r := rows[o];
        var committedAt := if r.shipCommittedAt.Some? then r.shipCommittedAt else r.updatedAt;
        rows := rows[o := r.(shipCommittedAt := committedAt, status := None, updatedAt := Some(now))];
        todo := todo - {o};
      }
    }

    /** UPDATE order_fulfillment .. WHERE fulfillment_status = 'SHIPPED' */
    method MoveShipped(now: Time)
      modifies this
      ensures rows == Updated(old(rows), r => Shipped(r, now))
    {
      var todo := set o | o in rows && rows[o].status == Some(SHIPPED);
      while todo != {}
        invariant rows.Keys == old(rows).Keys
        invariant forall o :: o in todo ==> o in rows && old(rows)[o].status == Some(SHIPPED)
        invariant forall o :: o in rows ==> rows[o] == if o in todo then old(rows)[o] else Shipped(old(rows)[o], now)
        decreases todo
      {
        var o := NextRow(todo);
        var r := rows[o];
        var shippedAt := if r.shippedAt.Some? then r.shippedAt else r.updatedAt;
        var committedAt := if r.shipCommittedAt.Some? then r.shipCommittedAt else shippedAt;
        rows := rows[o := Row(None, Some(now), committedAt, shippedAt)];
        todo := todo - {o};
      }
    }

    /** The two updates in the order given, then the two new checks. */
    method RunUpgrade(now: Time, shippedFirst: bool) returns (ok: bool)
      modifies this
      ensures ok == Upgrade(old(rows), now).Done?
      ensures rows == if ok then Upgrade(old(rows), now).state else old(rows)
    {
      var before := rows;
      if shippedFirst {
        MoveShipped(now);
        MoveCommitted(now);
        UpdatesCommute(before, now);
      } else {
        MoveCommitted(now);
        MoveShipped(now);
      }
      ok := ChecksHold(rows);
      if !ok {
        rows := before;
      }
    }

    /** UPDATE order_fulfillment .. WHERE shipped_at IS NOT NULL: afterwards exactly the rows that carry a shipping time and
        those that already had the status are SHIPPED. */
    method MarkShipped(now: Time)
      modifies this
      ensures rows == Updated(old(rows), r => BackToShipped(r, now))
      ensures forall o :: o in old(rows) ==>
        && o in rows
        && (rows[o].status == Some(SHIPPED) <==> rows[o].shippedAt.Some? || old(rows)[o].status == Some(SHIPPED))
    {
      var todo := set o | o in rows && rows[o].shippedAt.Some?;
      while todo != {}
        invariant rows.Keys == old(rows).Keys
        invariant forall o :: o in todo ==> o in rows && old(rows)[o].shippedAt.Some?
        invariant forall o :: o in rows ==>
          rows[o] == if o in todo then old(rows)[o] else BackToShipped(old(rows)[o], now)
        decreases todo
      {
        var o := NextRow(todo);
        rows := rows[o := rows[o].(status := Some(SHIPPED), updatedAt := Some(now))];
        todo := todo - {o};
      }
    }

    /** UPDATE order_fulfillment .. WHERE shipped_at IS NULL AND ship_committed_at IS NOT NULL: it leaves alone what the update
        before it has marked. */
    method MarkCommitted(now: Time)
      modifies this
      ensures rows == Updated(old(rows), r => BackToCommitted(r, now))
      ensures forall o :: o in old(rows) ==>
        && o in rows
        && (rows[o].shippedAt.Some? ==> rows[o] == old(rows)[o])
        && (rows[o].shippedAt.None? && rows[o].shipCommittedAt.Some? ==> rows[o].status == Some(SHIP_COMMITTED))
    {
      var todo := set o | o in rows && rows[o].shippedAt.None? && rows[o].shipCommittedAt.Some?;
      while todo != {}
        invariant rows.Keys == old(rows).Keys
        invariant forall o :: o in todo ==> o in rows && old(rows)[o].shippedAt.None? && old(rows)[o].shipCommittedAt.Some?
        invariant forall o :: o in rows ==>
          rows[o] == if o in todo then old(rows)[o] else BackToCommitted(old(rows)[o], now)
        decreases todo
      {
        var o := NextRow(todo);
        rows := rows[o := rows[o].(status := Some(SHIP_COMMITTED), updatedAt := Some(now))];
        todo := todo - {o};
      }
    }

    method RunDowngrade(now: Time)
      modifies this
      ensures rows == Downgrade(old(rows), now)
    {
      MarkShipped(now);
      MarkCommitted(now);
      rows := map o | o in rows :: rows[o].(shipCommittedAt := None, shippedAt := None);
    }
  }
}
