/** Unique constraints. The database checks them row by row while an UPDATE runs, in an order that SQL
    leaves open; this module shows when that amounts to checking the final table. */
module UniqueKeys {
  import opened Sql

  /** No two rows have the same key. */
  predicate Unique<R, K(==)>(keys: map<R, K>) {
    forall a, b :: a in keys && b in keys && a != b ==> keys[a] != keys[b]
  }

  /** The keys while an UPDATE has rewritten the rows `done`. */
  function Midway<R, K>(before: map<R, K>, after: map<R, K>, done: set<R>): map<R, K>
    requires before.Keys == after.Keys
  {
    map r | r in before :: if r in done then after[r] else before[r]
  }

  /** The key a row is moved to is only held by rows that stay where they are. */
  ghost predicate TargetsStay<R, K>(before: map<R, K>, after: map<R, K>)
    requires before.Keys == after.Keys
  {
    forall a, b :: a in before && b in before && after[a] == before[b] ==> after[b] == before[b]
  }

  /** If the final table is unique, no order of the row updates runs into a conflict on the way. */
  lemma RowChecksFollowFinalCheck<R, K>(before: map<R, K>, after: map<R, K>, done: set<R>)
    requires before.Keys == after.Keys && TargetsStay(before, after)
    requires Unique(before) && Unique(after)
    ensures Unique(Midway(before, after, done))
  {
    var mid := Midway(before, after, done);
    forall a, b | a in mid && b in mid && a != b ensures mid[a] != mid[b] {
      if a in done && b !in done {
        assert after[a] == before[b] ==> after[b] == before[b];
      } else if b in done && a !in done {
        assert after[b] == before[a] ==> after[a] == before[a];
      }
    }
  }

  /** Exactly when every order of the row updates goes through. */
  lemma EveryOrderPassesExactly<R, K>(before: map<R, K>, after: map<R, K>)
    requires before.Keys == after.Keys && Unique(before)
    ensures (forall done :: Unique(Midway(before, after, done))) <==> Unique(after) && TargetsStay(before, after)
  {
    if forall done :: Unique(Midway(before, after, done)) {
      assert Midway(before, after, before.Keys) == after;
      assert Unique(Midway(before, after, before.Keys));
      forall a, b | a in before && b in before && after[a] == before[b] ensures after[b] == before[b] {
        var mid := Midway(before, after, {a});
        assert Unique(mid) && mid[a] == after[a];
      }
    } else if Unique(after) && TargetsStay(before, after) {
      forall done ensures Unique(Midway(before, after, done)) {
        RowChecksFollowFinalCheck(before, after, done);
      }
    }
  }

  /** When only the rows `moved` change their keys, only they can collide, among themselves or with a row that stays. */
  lemma OnlyMovedRowsCollide<R, K>(before: map<R, K>, after: map<R, K>, moved: set<R>)
    requires before.Keys == after.Keys && Unique(before)
    requires forall r :: r in before && r !in moved ==> after[r] == before[r]
    ensures Unique(after) <==>
      !exists a, b :: a in moved && a in after && b in after && a != b && after[a] == after[b]
  {
  }

  /** The index as an UPDATE runs: each row is moved to its new key and checked at once, in any order. An UPDATE that goes
      through leaves a unique table; where no row has to wait for another to move, the final table decides. */
  method UpdateRowByRow<R, K(==)>(before: map<R, K>, after: map<R, K>) returns (ok: bool)
    requires before.Keys == after.Keys && Unique(before)
    ensures ok ==> Unique(after)
    ensures TargetsStay(before, after) ==> ok == Unique(after)
  {
    var index, todo := before, before.Keys;
    assert Midway(before, after, {}) == before;
    while todo != {}
      invariant todo <= before.Keys
      invariant index == Midway(before, after, before.Keys - todo) && Unique(index)
      decreases todo
    {
      var r := NextRow(todo);
      ghost var mid := Midway(before, after, before.Keys - (todo - {r}));
      index := index[r := after[r]];
      assert index == mid;
      if exists other :: other in index.Keys && other != r && index[other] == index[r] {
        if Unique(after) && TargetsStay(before, after) {
          RowChecksFollowFinalCheck(before, after, before.Keys - (todo - {r}));
        }
        return false;
      }
      todo := todo - {r};
    }
    assert index == after;
    return true;
  }
}
