/** Backfilling lots.production_date from two sources, the receipt rows of the ledger and the receipt lines:
    a lot gets a date when the sources name exactly one. */
module LotDates {
  import opened Sql

  type Id = nat
  type Date = int

  const RECEIPT := "RECEIPT"

  datatype Lot = Lot(expiryRequired: bool, productionDate: Option<Date>)
  datatype Entry = Entry(lot: Id, reasonCanon: string, productionDate: Option<Date>)
  datatype ReceiptLine = ReceiptLine(lot: Option<Id>, productionDate: Option<Date>)

  type Lots = map<Id, Lot>
  datatype Sources = Sources(ledger: map<Id, Entry>, receiptLines: map<Id, ReceiptLine>)

  /** A row of ledger_one or receipt_one: MIN(production_date) and COUNT(DISTINCT production_date) of a lot. */
  datatype Aggregate = Aggregate(pd: Date, distinctPd: nat)

  /** The dates that each source names for a lot. */
  function LedgerDates(src: Sources, lot: Id): set<Date> {
    set e | e in src.ledger && src.ledger[e].lot == lot && src.ledger[e].reasonCanon == RECEIPT &&
            src.ledger[e].productionDate.Some? :: src.ledger[e].productionDate.value
  }

  function ReceiptDates(src: Sources, lot: Id): set<Date> {
    set r | r in src.receiptLines && src.receiptLines[r].lot == Some(lot) &&
            src.receiptLines[r].productionDate.Some? :: src.receiptLines[r].productionDate.value
  }

  /** What aggregating a set of dates gives; no row at all for an empty set. */
  ghost predicate IsAggregate(a: Option<Aggregate>, dates: set<Date>) {
    match a
    case None => dates == {}
    case Some(g) => g.pd in dates && (forall d :: d in dates ==> g.pd <= d) && g.distinctPd == |dates|
  }

  /** The CASE of the `resolved` CTE over the two outer-joined aggregates. */
  function Candidate(lo: Option<Aggregate>, ro: Option<Aggregate>): Option<Date> {
    var loDistinct := if lo.Some? then lo.value.distinctPd else 0;
    var roDistinct := if ro.Some? then ro.value.distinctPd else 0;
    if lo.Some? && lo.value.distinctPd == 1 && roDistinct == 0 then Some(lo.value.pd)
    else if ro.Some? && ro.value.distinctPd == 1 && loDistinct == 0 then Some(ro.value.pd)
    else if lo.Some? && ro.Some? && lo.value.distinctPd == 1 && ro.value.distinctPd == 1 && lo.value.pd == ro.value.pd
    then Some(lo.value.pd)
    else None
  }

  /** The meaning of a candidate: the single date that all sources of the lot agree on. */
  ghost predicate IsCandidate(src: Sources, lot: Id, d: Option<Date>) {
    match d
    case Some(x) => LedgerDates(src, lot) + ReceiptDates(src, lot) == {x}
    case None => !exists x :: LedgerDates(src, lot) + ReceiptDates(src, lot) == {x}
  }

  ghost function CandidateOf(src: Sources, lot: Id): Option<Date> {
    if exists x :: LedgerDates(src, lot) + ReceiptDates(src, lot) == {x}
    then var x :| LedgerDates(src, lot) + ReceiptDates(src, lot) == {x}; Some(x)
    else None
  }

  lemma OneDate(a: Option<Aggregate>, dates: set<Date>)
    requires IsAggregate(a, dates)
    ensures a.Some? && a.value.distinctPd == 1 <==> exists x :: dates == {x}
    ensures a.Some? && a.value.distinctPd == 1 ==> dates == {a.value.pd}
    ensures a.None? || a.value.distinctPd != 0
  {
    if a.Some? {
      var rest := dates - {a.value.pd};
      assert dates == rest + {a.value.pd};
      if a.value.distinctPd == 1 {
        assert |rest| == 0;
        assert dates == {a.value.pd};
      }
    }
  }

  /** The case analysis on MIN and COUNT(DISTINCT) yields a date exactly when it is the only one in the union of
      the two sources. */
  lemma CandidateIsTheOnlyDate(src: Sources, lot: Id, lo: Option<Aggregate>, ro: Option<Aggregate>)
    requires IsAggregate(lo, LedgerDates(src, lot)) && IsAggregate(ro, ReceiptDates(src, lot))
    ensures IsCandidate(src, lot, Candidate(lo, ro))
  {
    var a, b := LedgerDates(src, lot), ReceiptDates(src, lot);
    OneDate(lo, a);
    OneDate(ro, b);
    hide LedgerDates, ReceiptDates;
    if x :| a + b == {x} {
      OnlyDateOfUnion(a, b, x);
    }
  }

  lemma OnlyDateOfUnion(a: set<Date>, b: set<Date>, x: Date)
    requires a + b == {x}
    ensures (a == {x} && b == {x}) || (a == {x} && b == {}) || (a == {} && b == {x})
  {
    assert x in a + b;
    forall y | y in a ensures y == x { assert y in a + b; }
    forall y | y in b ensures y == x { assert y in a + b; }
    if x in a { assert a == {x}; } else { assert a == {}; }
    if x in b { assert b == {x}; } else { assert b == {}; }
  }

  lemma CandidateIsUnique(src: Sources, lot: Id, d: Option<Date>)
    requires IsCandidate(src, lot, d)
    ensures d == CandidateOf(src, lot)
  {
    hide LedgerDates, ReceiptDates;
    if d.Some? {
      var c := CandidateOf(src, lot);
      assert d.value in {d.value};
      assert c.value in {c.value};
    }
  }

  // ---------------------------------------------------------------- upgrade and downgrade

  ghost function Upgrade(src: Sources, lots: Lots): Lots {
    map l | l in lots ::
      if lots[l].expiryRequired && lots[l].productionDate.None? && CandidateOf(src, l).Some?
      then lots[l].(productionDate := CandidateOf(src, l)) else lots[l]
  }

  ghost function Downgrade(src: Sources, lots: Lots): Lots {
    map l | l in lots ::
      if lots[l].expiryRequired && lots[l].productionDate.Some? && CandidateOf(src, l) == lots[l].productionDate
      then lots[l].(productionDate := None) else lots[l]
  }

  /** Downgrading after upgrading restores the lots exactly when no lot that requires a date already carried the one
      its sources agree on: such a date is not told apart from a backfilled one, and is lost. */
  lemma RoundTripExactly(src: Sources, lots: Lots)
    ensures Downgrade(src, Upgrade(src, lots)) == lots <==>
      !exists l :: l in lots && lots[l].expiryRequired && lots[l].productionDate.Some? &&
        IsCandidate(src, l, lots[l].productionDate)
  {
    hide IsCandidate, CandidateOf;
    var back := Downgrade(src, Upgrade(src, lots));
    forall l | l in lots && lots[l].expiryRequired && lots[l].productionDate.Some?
      ensures back[l] == lots[l] <==> !IsCandidate(src, l, lots[l].productionDate)
    {
      CandidateDecides(src, l, lots[l].productionDate);
    }
  }

  /** A lot that carried the date of its own receipt before the upgrade loses it in the downgrade. */
  lemma OwnDateIsLost(src: Sources, lots: Lots)
    requires src.ledger == map[1 := Entry(1, RECEIPT, Some(20))] && src.receiptLines == map[1 := ReceiptLine(Some(1), None)]
    requires lots == map[1 := Lot(true, Some(20))]
    ensures Upgrade(src, lots) == lots && Downgrade(src, Upgrade(src, lots)) == map[1 := Lot(true, None)]
  {
    assert src.ledger[1] == Entry(1, RECEIPT, Some(20)) && 20 in LedgerDates(src, 1);
    assert LedgerDates(src, 1) + ReceiptDates(src, 1) == {20};
    CandidateDecides(src, 1, Some(20));
    hide CandidateOf;
  }

  lemma CandidateDecides(src: Sources, lot: Id, d: Option<Date>)
    ensures CandidateOf(src, lot) == d <==> IsCandidate(src, lot, d)
  {
    hide LedgerDates, ReceiptDates;
    if IsCandidate(src, lot, d) {
      CandidateIsUnique(src, lot, d);
    }
  }

  /** After the upgrade no lot that requires a date lacks one that its sources agree on; lots that had a date, or do not
      require one, are untouched; and a second upgrade changes nothing. */
  lemma UpgradeIsCompleteAndIdempotent(src: Sources, lots: Lots, l: Id)
    requires l in lots
    ensures var after := Upgrade(src, lots);
      && (after[l].expiryRequired && after[l].productionDate.None? ==> IsCandidate(src, l, None))
      && (after[l] != lots[l] ==>
            lots[l].expiryRequired && lots[l].productionDate.None? && IsCandidate(src, l, after[l].productionDate))
      && Upgrade(src, after) == after
  {
    hide IsCandidate, CandidateOf;
    CandidateDecides(src, l, None);
    CandidateDecides(src, l, CandidateOf(src, l));
  }

  // ---------------------------------------------------------------- on the rows

  /** Some receipt entry of the ledger, or some receipt line, gives the lot this date. Other ledger entries do not count. */
  ghost predicate Names(src: Sources, lot: Id, d: Date) {
    || (exists e :: e in src.ledger && src.ledger[e] == Entry(lot, "RECEIPT", Some(d)))
    || (exists r :: r in src.receiptLines && src.receiptLines[r] == ReceiptLine(Some(lot), Some(d)))
  }

  lemma NamedDates(src: Sources, lot: Id, d: Date)
    ensures Names(src, lot, d) <==> d in LedgerDates(src, lot) + ReceiptDates(src, lot)
  {
    if d in LedgerDates(src, lot) {
      var e :| e in src.ledger && src.ledger[e].lot == lot && src.ledger[e].reasonCanon == RECEIPT &&
               src.ledger[e].productionDate == Some(d);
      assert src.ledger[e] == Entry(lot, "RECEIPT", Some(d));
    }
    if d in ReceiptDates(src, lot) {
      var r :| r in src.receiptLines && src.receiptLines[r].lot == Some(lot) && src.receiptLines[r].productionDate == Some(d);
      assert src.receiptLines[r] == ReceiptLine(Some(lot), Some(d));
    }
  }

  /** The rows of the lot name this date and no other. */
  ghost predicate NamesOnly(src: Sources, lot: Id, d: Date) {
    Names(src, lot, d) && forall x :: Names(src, lot, x) ==> x == d
  }

  lemma NamedOnly(src: Sources, lot: Id, d: Date)
    ensures NamesOnly(src, lot, d) <==> LedgerDates(src, lot) + ReceiptDates(src, lot) == {d}
  {
    var dates := LedgerDates(src, lot) + ReceiptDates(src, lot);
    forall x ensures Names(src, lot, x) <==> x in dates {
      NamedDates(src, lot, x);
    }
    hide Names, LedgerDates, ReceiptDates;
    if NamesOnly(src, lot, d) {
      forall x ensures x in dates <==> x in {d} {
        assert Names(src, lot, x) <==> x in dates;
      }
    }
  }

  /** The candidate is the date that the rows of the lot name, if they name exactly one. */
  lemma CandidateOnRows(src: Sources, lot: Id, d: Date)
    ensures CandidateOf(src, lot) == Some(d) <==> NamesOnly(src, lot, d)
  {
    NamedOnly(src, lot, d);
    CandidateDecides(src, lot, Some(d));
    hide NamesOnly, CandidateOf, LedgerDates, ReceiptDates;
  }

  /** Every lot after the upgrade: only a lot that requires a date, has none, and whose rows name exactly one changes, and only
      in that date. */
  lemma LotAfterUpgrade(src: Sources, lots: Lots, l: Id, d: Date)
    requires l in lots
    ensures var lots' := Upgrade(src, lots);
      && lots'.Keys == lots.Keys && lots'[l].expiryRequired == lots[l].expiryRequired
      && (lots[l].productionDate != Some(d) ==>
            (lots'[l].productionDate == Some(d) <==>
             lots[l].expiryRequired && lots[l].productionDate == None && NamesOnly(src, l, d)))
      && (lots[l].productionDate == Some(d) ==> lots'[l] == lots[l])
  {
    CandidateOnRows(src, l, d);
    hide NamesOnly, CandidateOf;
  }

  /** Every lot after the downgrade: exactly the lots that require a date and carry the one their rows name lose it. */
  lemma LotAfterDowngrade(src: Sources, lots: Lots, l: Id)
    requires l in lots
    ensures Downgrade(src, lots).Keys == lots.Keys
    ensures Downgrade(src, lots)[l] ==
      if lots[l].expiryRequired && lots[l].productionDate.Some? && NamesOnly(src, l, lots[l].productionDate.value)
      then Lot(true, None) else lots[l]
  {
    if lots[l].productionDate.Some? {
      CandidateOnRows(src, l, lots[l].productionDate.value);
    }
    hide NamesOnly, CandidateOf;
  }

  // ---------------------------------------------------------------- the statements

  class LotsDb {
    var ledger: map<Id, Entry>
    var receiptLines: map<Id, ReceiptLine>
    var lots: Lots

    function Src(): Sources
      reads this
    {
      Sources(ledger, receiptLines)
    }

    /** One lot's row of the `resolved` CTE. */
    method Resolve(l: Id) returns (candidate: Option<Date>)
      ensures candidate == CandidateOf(Src(), l)
    {
      var lo := AggregateDates(LedgerDates(Src(), l));
      var ro := AggregateDates(ReceiptDates(Src(), l));
      CandidateIsTheOnlyDate(Src(), l, lo, ro);
      candidate := Candidate(lo, ro);
      CandidateIsUnique(Src(), l, candidate);
    }

    /** UPDATE lots SET production_date = candidate_pd FROM resolved, one row after the other. */
    method RunUpgrade()
      modifies this`lots
      ensures lots == Upgrade(Src(), old(lots))
    {
      hide CandidateOf;
      var todo := lots.Keys;
      while todo != {}
        invariant todo <= lots.Keys == old(lots).Keys
        invariant forall l :: l in lots ==> lots[l] == if l in todo then old(lots)[l] else Upgrade(Src(), old(lots))[l]
        decreases todo
      {
        var l := NextRow(todo);
        var candidate := Resolve(l);
        if lots[l].expiryRequired && lots[l].productionDate.None? && candidate.Some? {
          lots := lots[l := lots[l].(productionDate := candidate)];
        }
        todo := todo - {l};
      }
    }

    /** The downgrade's UPDATE: SET production_date = NULL where it equals the candidate. */
    method RunDowngrade()
      modifies this`lots
      ensures lots == Downgrade(Src(), old(lots))
    {
      hide CandidateOf;
      var todo := lots.Keys;
      while todo != {}
        invariant todo <= lots.Keys == old(lots).Keys
        invariant forall l :: l in lots ==> lots[l] == if l in todo then old(lots)[l] else Downgrade(Src(), old(lots))[l]
        decreases todo
      {
        var l := NextRow(todo);
        var candidate := Resolve(l);
        if lots[l].expiryRequired && lots[l].productionDate.Some? && candidate.Some? && lots[l].productionDate == candidate {
          lots := lots[l := lots[l].(productionDate := None)];
        }
        todo := todo - {l};
      }
    }
  }

  /** MIN(d), COUNT(DISTINCT d) over a group that is not empty. */
  method AggregateDates(dates: set<Date>) returns (a: Option<Aggregate>)
    ensures IsAggregate(a, dates)
  {
    if dates == {} {
      return None;
    }
    var pd := NextRow(dates);
    var todo := dates;
    while todo != {}
      invariant todo <= dates && pd in dates
      invariant forall d :: d in dates && d !in todo ==> pd <= d
      decreases todo
    {
      var d := NextRow(todo);
      if d < pd {
        pd := d;
      }
      todo := todo - {d};
    }
    return Some(Aggregate(pd, |dates|));
  }
}
