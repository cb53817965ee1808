/** Recomputing purchase order status in base units: one pass over the lines, one over the heads that have lines,
    one over the heads that have none. */
module PurchaseOrders {
  import opened Sql

  type Id = nat
  type Time = int

  datatype Status = CREATED | PARTIAL | RECEIVED

  /** `status` is free text before the migration. */
  datatype Line = Line(po: Id, qtyOrdered: int, unitsPerCase: Option<int>, qtyReceived: Option<int>, status: string)
  datatype Head = Head(status: string, closedAt: Option<Time>)
  datatype Tables = Tables(lines: map<Id, Line>, heads: map<Id, Head>)

  function Text(s: Status): string {
    match s
    case CREATED => "CREATED"
    case PARTIAL => "PARTIAL"
    case RECEIVED => "RECEIVED"
  }

  /** qty_ordered * COALESCE(NULLIF(units_per_case, 0), 1) */
  function Ordered(l: Line): int {
    l.qtyOrdered * (if l.unitsPerCase.None? || l.unitsPerCase.value == 0 then 1 else l.unitsPerCase.value)
  }

  function Received(l: Line): int {
    l.qtyReceived.GetOr(0)
  }

  function LineStatus(l: Line): Status {
    if Received(l) <= 0 then CREATED else if Received(l) < Ordered(l) then PARTIAL else RECEIVED
  }

  function LinesOf(lines: map<Id, Line>, po: Id): set<Id> {
    set l | l in lines && lines[l].po == po
  }

  /** The two BOOL_ANDs of the aggregate. */
  predicate AllZero(lines: map<Id, Line>, po: Id) {
    forall l :: l in LinesOf(lines, po) ==> Received(lines[l]) == 0
  }

  predicate AllFull(lines: map<Id, Line>, po: Id) {
    forall l :: l in LinesOf(lines, po) ==> Received(lines[l]) >= Ordered(lines[l])
  }

  function HeadStatus(lines: map<Id, Line>, po: Id): Status {
    if AllZero(lines, po) then CREATED else if AllFull(lines, po) then RECEIVED else PARTIAL
  }

  /** The head of an order with lines after pass 2, and of one without after pass 3. */
  function HeadAfter(lines: map<Id, Line>, po: Id, head: Head, now: Time): Head {
    if LinesOf(lines, po) == {} then Head("CREATED", None)
    else Head(Text(HeadStatus(lines, po)),
              if AllFull(lines, po) then Coalesce(head.closedAt, Some(now)) else None)
  }

  function LinesAfter(lines: map<Id, Line>): map<Id, Line> {
    map l | l in lines :: lines[l].(status := Text(LineStatus(lines[l])))
  }

  function HeadsAfter(lines: map<Id, Line>, heads: map<Id, Head>, now: Time): map<Id, Head> {
    map po | po in heads :: HeadAfter(lines, po, heads[po], now)
  }

  /** The three passes. The product is of type INTEGER, and the aggregate computes it for every line. */
  function Upgrade(t: Tables, now: Time): Outcome<Tables> {
    if exists l :: l in t.lines && !FitsInteger(Ordered(t.lines[l])) then Aborted
    else Done(Tables(LinesAfter(t.lines), HeadsAfter(t.lines, t.heads, now)))
  }

  /** A head agrees with its lines: CREATED or RECEIVED exactly when all of them are, PARTIAL otherwise, and closed
      exactly when RECEIVED. */
  ghost predicate Agrees(t: Tables, po: Id)
    requires po in t.heads
  {
    && (t.heads[po].status == "CREATED" <==> forall l :: l in LinesOf(t.lines, po) ==> t.lines[l].status == "CREATED")
    && (t.heads[po].status == "RECEIVED" <==>
          LinesOf(t.lines, po) != {} && forall l :: l in LinesOf(t.lines, po) ==> t.lines[l].status == "RECEIVED")
    && t.heads[po].status in {"CREATED", "PARTIAL", "RECEIVED"}
    && (t.heads[po].closedAt.Some? <==> t.heads[po].status == "RECEIVED")
  }

  /** The two ways the head aggregate and the line cases differ: nothing arrived but something is booked negative, or every
      line counts as full although one of them received nothing. */
  ghost predicate Ambivalent(lines: map<Id, Line>, po: Id) {
    || ((forall l :: l in LinesOf(lines, po) ==> Received(lines[l]) <= 0) &&
        (exists l :: l in LinesOf(lines, po) && Received(lines[l]) < 0))
    || (AllFull(lines, po) && (exists l :: l in LinesOf(lines, po) && Received(lines[l]) <= 0))
  }

  lemma LinesKeepTheirOrder(t: Tables, now: Time, po: Id)
    requires Upgrade(t, now).Done?
    ensures LinesOf(Upgrade(t, now).state.lines, po) == LinesOf(t.lines, po)
    ensures forall l :: l in LinesOf(t.lines, po) ==>
      Upgrade(t, now).state.lines[l].status == Text(LineStatus(t.lines[l]))
  {
  }

  lemma TextsDiffer()
    ensures "CREATED" != "PARTIAL" && "CREATED" != "RECEIVED" && "PARTIAL" != "RECEIVED"
  {
    assert "CREATED"[0] != "PARTIAL"[0] && "CREATED"[0] != "RECEIVED"[0] && "PARTIAL"[0] != "RECEIVED"[0];
  }

  lemma TextIs(a: Status, b: Status)
    ensures Text(a) == Text(b) <==> a == b
  {
    TextsDiffer();
  }

  lemma AllTexts()
    ensures Text(CREATED) == "CREATED" && Text(PARTIAL) == "PARTIAL" && Text(RECEIVED) == "RECEIVED"
  {
  }

  function FinalStatus(lines: map<Id, Line>, po: Id): Status {
    if LinesOf(lines, po) == {} then CREATED else HeadStatus(lines, po)
  }

  /** The agreement on status values. */
  ghost predicate ValuesAgree(lines: map<Id, Line>, po: Id) {
    && (FinalStatus(lines, po) == CREATED <==> forall l :: l in LinesOf(lines, po) ==> LineStatus(lines[l]) == CREATED)
    && (FinalStatus(lines, po) == RECEIVED <==>
          LinesOf(lines, po) != {} && forall l :: l in LinesOf(lines, po) ==> LineStatus(lines[l]) == RECEIVED)
    && (LinesOf(lines, po) != {} && AllFull(lines, po) <==> FinalStatus(lines, po) == RECEIVED)
  }

  lemma ValuesAgreeExactly(lines: map<Id, Line>, po: Id)
    ensures ValuesAgree(lines, po) <==> !Ambivalent(lines, po)
  {
    var mine := LinesOf(lines, po);
    if mine != {} {
      assert SomeRow(mine) in mine;
    }
    assert forall l :: l in mine ==> l in lines;
    hide LinesOf, Ordered, Received;
  }

  /** When exactly a head agrees with its lines after the recomputation. */
  lemma AgreesExactly(t: Tables, now: Time, po: Id)
    requires Upgrade(t, now).Done? && po in t.heads
    ensures Agrees(Upgrade(t, now).state, po) <==> !Ambivalent(t.lines, po)
  {
    var t' := Upgrade(t, now).state;
    LinesKeepTheirOrder(t, now, po);
    ValuesAgreeExactly(t.lines, po);
    forall a, b ensures Text(a) == Text(b) <==> a == b {
      TextIs(a, b);
    }
    AllTexts();
    hide LinesOf, Ambivalent, Text, LineStatus, HeadStatus, AllFull, AllZero;
    var head := FinalStatus(t.lines, po);
    assert t'.heads[po].status == Text(head);
  }

  /** The columns are plain integers: a negative receipt leaves its line CREATED and its order PARTIAL. */
  lemma NegativeReceiptDisagrees(t: Tables, now: Time)
    requires t == Tables(map[1 := Line(7, 10, None, Some(-1), "CREATED")], map[7 := Head("CREATED", None)])
    ensures Upgrade(t, now).Done? && Ambivalent(t.lines, 7) && !Agrees(Upgrade(t, now).state, 7)
    ensures var t' := Upgrade(t, now).state; t'.lines[1].status == "CREATED" && t'.heads[7].status == "PARTIAL"
  {
    assert LinesOf(t.lines, 7) == {1};
    AgreesExactly(t, now, 7);
  }

  /** An order of nothing counts as full without a receipt: its head is CREATED and closed at once. */
  lemma EmptyOrderDisagrees(t: Tables, now: Time)
    requires t == Tables(map[1 := Line(7, 0, None, Some(0), "CREATED")], map[7 := Head("CREATED", None)])
    ensures Upgrade(t, now).Done? && Ambivalent(t.lines, 7) && !Agrees(Upgrade(t, now).state, 7)
    ensures Upgrade(t, now).state.heads[7] == Head("CREATED", Some(now))
  {
    assert LinesOf(t.lines, 7) == {1};
    AgreesExactly(t, now, 7);
  }

  /** Beside a line that did arrive, such a line stays CREATED while its head is RECEIVED. */
  lemma EmptyLineDisagrees(t: Tables, now: Time)
    requires t == Tables(map[1 := Line(7, 0, None, Some(0), "CREATED"), 2 := Line(7, 1, None, Some(1), "CREATED")],
                         map[7 := Head("CREATED", None)])
    ensures Upgrade(t, now).Done? && Ambivalent(t.lines, 7) && !Agrees(Upgrade(t, now).state, 7)
    ensures var t' := Upgrade(t, now).state; t'.lines[1].status == "CREATED" && t'.heads[7].status == "RECEIVED"
  {
    assert LinesOf(t.lines, 7) == {1, 2};
    AgreesExactly(t, now, 7);
  }

  /** In particular with positive orders and no negative receipts every head agrees. */
  lemma OrdinaryOrdersAgree(t: Tables, now: Time, po: Id)
    requires Upgrade(t, now).Done? && po in t.heads
    requires forall l :: l in t.lines ==>
      t.lines[l].qtyOrdered >= 1 && (t.lines[l].unitsPerCase.Some? ==> t.lines[l].unitsPerCase.value >= 0) &&
      Received(t.lines[l]) >= 0
    ensures Agrees(Upgrade(t, now).state, po)
  {
    forall l | l in t.lines ensures Ordered(t.lines[l]) >= 1 {
      var u := if t.lines[l].unitsPerCase.None? || t.lines[l].unitsPerCase.value == 0 then 1 else t.lines[l].unitsPerCase.value;
      PositiveProduct(t.lines[l].qtyOrdered, u);
    }
    AgreesExactly(t, now, po);
  }

  lemma PositiveProduct(a: int, b: int)
    requires a >= 1 && b >= 1
    ensures a * b >= 1
  {
  }

  /** The head passes read quantities, not line statuses. */
  lemma HeadsIgnoreLineStatus(lines: map<Id, Line>, heads: map<Id, Head>, now: Time)
    ensures HeadsAfter(LinesAfter(lines), heads, now) == HeadsAfter(lines, heads, now)
  {
    hide Text, LineStatus;
    var lines' := LinesAfter(lines);
    forall po ensures LinesOf(lines', po) == LinesOf(lines, po)
      && (AllZero(lines', po) <==> AllZero(lines, po)) && (AllFull(lines', po) <==> AllFull(lines, po))
    {
      assert LinesOf(lines', po) == LinesOf(lines, po);
    }
    hide LinesOf, AllZero, AllFull, LinesAfter;
  }

  /** Running the passes again, at any later time, changes nothing. */
  lemma UpgradeIsIdempotent(t: Tables, now: Time, later: Time)
    requires Upgrade(t, now).Done?
    ensures Upgrade(Upgrade(t, now).state, later) == Upgrade(t, now)
  {
    var t' := Upgrade(t, now).state;
    HeadsIgnoreLineStatus(t.lines, t'.heads, later);
    hide LinesOf, AllZero, AllFull, Text;
    assert HeadsAfter(t.lines, t'.heads, later) == t'.heads;
    assert forall l :: l in t.lines ==> Ordered(t'.lines[l]) == Ordered(t.lines[l]);
    assert LinesAfter(t'.lines) == t'.lines;
  }

  // ---------------------------------------------------------------- on the columns

  /** Orders are counted in cases, receipts in base units: a case holds units_per_case of them, and one where that is null or 0. */
  lemma OrderedInBaseUnits(l: Line)
    ensures l.unitsPerCase == None || l.unitsPerCase == Some(0) ==> Ordered(l) == l.qtyOrdered
    ensures forall n :: l.unitsPerCase == Some(n) && n != 0 ==> Ordered(l) == l.qtyOrdered * n
    ensures l.qtyReceived == None ==> Received(l) == 0
    ensures forall n :: l.qtyReceived == Some(n) ==> Received(l) == n
  {
  }

  /** The passes fail exactly on a product that does not fit INTEGER. */
  lemma FailsOnColumns(t: Tables, now: Time)
    ensures Upgrade(t, now).Done? <==> forall l :: l in t.lines ==> -2147483648 <= Ordered(t.lines[l]) < 2147483648
  {
    hide Ordered;
  }

  /** Every line after the passes: its status by received and ordered base units, and nothing else changed. */
  lemma LinesOnColumns(t: Tables, now: Time, l: Id)
    requires Upgrade(t, now).Done? && l in t.lines
    ensures Upgrade(t, now).state.lines.Keys == t.lines.Keys
    ensures var old_, new_ := t.lines[l], Upgrade(t, now).state.lines[l];
      && new_.po == old_.po && new_.qtyOrdered == old_.qtyOrdered && new_.unitsPerCase == old_.unitsPerCase
      && new_.qtyReceived == old_.qtyReceived
      && (Received(old_) <= 0 ==> new_.status == "CREATED")
      && (0 < Received(old_) < Ordered(old_) ==> new_.status == "PARTIAL")
      && (0 < Received(old_) && Ordered(old_) <= Received(old_) ==> new_.status == "RECEIVED")
  {
  }

  /** Every head after the passes, by the quantities of its lines. */
  lemma HeadsOnColumns(t: Tables, now: Time, po: Id)
    requires Upgrade(t, now).Done? && po in t.heads
    ensures Upgrade(t, now).state.heads.Keys == t.heads.Keys
    ensures var old_, new_ := t.heads[po], Upgrade(t, now).state.heads[po];
      var nothing := forall l :: l in t.lines && t.lines[l].po == po ==> Received(t.lines[l]) == 0;
      var full := forall l :: l in t.lines && t.lines[l].po == po ==> Received(t.lines[l]) >= Ordered(t.lines[l]);
      var empty := forall l :: l in t.lines ==> t.lines[l].po != po;
      && (nothing ==> new_.status == "CREATED")
      && (!nothing && full ==> new_.status == "RECEIVED")
      && (!nothing && !full ==> new_.status == "PARTIAL")
      && (empty || !full ==> new_.closedAt == None)
      && (!empty && full ==> new_.closedAt == if old_.closedAt.Some? then old_.closedAt else Some(now))
  {
    assert forall l :: l in LinesOf(t.lines, po) <==> l in t.lines && t.lines[l].po == po;
    if LinesOf(t.lines, po) != {} {
      assert SomeRow(LinesOf(t.lines, po)) in LinesOf(t.lines, po);
    }
    hide LinesOf, Ordered, Received;
  }

  /** Ten cases of twelve with ten units received are partly received. */
  lemma CasesAreNotUnits(t: Tables, now: Time)
    requires t == Tables(map[1 := Line(7, 10, Some(12), Some(10), "CREATED")], map[7 := Head("CREATED", None)])
    ensures Upgrade(t, now).Done?
    ensures Upgrade(t, now).state.lines[1].status == "PARTIAL" && Upgrade(t, now).state.heads[7] == Head("PARTIAL", None)
  {
    assert Ordered(t.lines[1]) == 120;
    LinesOnColumns(t, now, 1);
    HeadsOnColumns(t, now, 7);
    assert t.lines[1].po == 7;
  }

  class PurchaseDb {
    var lines: map<Id, Line>
    var heads: map<Id, Head>

    function Contents(): Tables
      reads this
    {
      Tables(lines, heads)
    }

    method Recalculate(now: Time) returns (ok: bool)
      modifies this
      ensures ok == Upgrade(old(Contents()), now).Done?
      ensures Contents() == if ok then Upgrade(old(Contents()), now).state else old(Contents())
    {
      if exists l :: l in lines.Keys && !FitsInteger(Ordered(lines[l])) {
        return false;
      }
      hide HeadAfter, LinesAfter, LinesOf, Ordered;
      ghost var before := Contents();
      RecalculateLines();
      RecalculateHeads(now);
      ResetEmptyOrders(before.heads, now);
      HeadsIgnoreLineStatus(before.lines, before.heads, now);
      ok := true;
    }

    /** Pass 1 */
    method RecalculateLines()
      modifies this`lines
      ensures lines == LinesAfter(old(lines))
    {
      var todo := lines.Keys;
      while todo != {}
        invariant todo <= lines.Keys == old(lines).Keys
        invariant forall l :: l in lines ==>
          lines[l] == if l in todo then old(lines)[l] else old(lines)[l].(status := Text(LineStatus(old(lines)[l])))
        decreases todo
      {
        var id := NextRow(todo);
        var l := lines[id];
        var status := "RECEIVED";
        if Received(l) <= 0 {
          status := "CREATED";
        } else if Received(l) < Ordered(l) {
          status := "PARTIAL";
        }
        lines := lines[id := l.(status := status)];
        todo := todo - {id};
      }
    }

    /** Pass 2: the heads that the aggregate has a row for. */
    method RecalculateHeads(now: Time)
      modifies this`heads
      ensures heads == map po | po in old(heads) ::
        if LinesOf(lines, po) == {} then old(heads)[po] else HeadAfter(lines, po, old(heads)[po], now)
    {
      hide AllZero, AllFull, LinesOf;
      var todo := heads.Keys;
      while todo != {}
        invariant todo <= heads.Keys == old(heads).Keys
        invariant forall po :: po in heads ==>
          heads[po] == if po in todo || LinesOf(lines, po) == {} then old(heads)[po]
                       else HeadAfter(lines, po, old(heads)[po], now)
        decreases todo
      {
        var po := NextRow(todo);
        if LinesOf(lines, po) != {} {
          var allZero, allFull := AllZero(lines, po), AllFull(lines, po);
          var status := "PARTIAL";
          if allZero {
            status := "CREATED";
          } else if allFull {
            status := "RECEIVED";
          }
          var closedAt := None;
          if allFull {
            closedAt := if heads[po].closedAt.Some? then heads[po].closedAt else Some(now);
          }
          heads := heads[po := Head(status, closedAt)];
        }
        todo := todo - {po};
      }
    }

    /** Pass 3 */
    method ResetEmptyOrders(ghost before: map<Id, Head>, ghost now: Time)
      requires heads == map po | po in before ::
        if LinesOf(lines, po) == {} then before[po] else HeadAfter(lines, po, before[po], now)
      modifies this`heads
      ensures heads == HeadsAfter(lines, before, now)
    {
      hide LinesOf, AllZero, AllFull;
      heads := map po | po in heads :: if LinesOf(lines, po) == {} then Head("CREATED", None) else heads[po];
    }
  }
}
