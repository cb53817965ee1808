/** SUM over the rows of a table. A group of rows is a finite map from row to summand, so two groups
    with the same rows and summands are the same map and have, whatever the order, the same sum. */
module MapSums {
  import opened Sql

  ghost function Sum<K>(m: map<K, int>): int
    decreases m.Keys
  {
    if m == map[] then 0 else
    var k :| k in m;
    assert (m - {k}).Keys == m.Keys - {k};
    m[k] + Sum(m - {k})
  }

  /** Any row can be taken out first. */
  lemma {:induction false} SumRemove<K>(m: map<K, int>, k: K)
    requires k in m
    ensures Sum(m) == m[k] + Sum(m - {k})
    decreases m.Keys
  {
    var p :| p in m && Sum(m) == m[p] + Sum(m - {p});
    if p != k {
      assert (m - {p}).Keys == m.Keys - {p};
      assert (m - {k}).Keys == m.Keys - {k};
      SumRemove(m - {p}, k);
      SumRemove(m - {k}, p);
      assert m - {p} - {k} == m - {k} - {p};
    }
  }

  lemma SumUpdate<K>(m: map<K, int>, k: K, v: int)
    ensures Sum(m[k := v]) == Sum(m - {k}) + v
  {
    SumRemove(m[k := v], k);
    assert m[k := v] - {k} == m - {k};
  }

  lemma {:induction false} SumUnion<K>(a: map<K, int>, b: map<K, int>)
    requires a.Keys !! b.Keys
    ensures Sum(a + b) == Sum(a) + Sum(b)
    decreases a.Keys
  {
    if a == map[] {
      assert a + b == b;
    } else {
      var k :| k in a;
      assert (a - {k}).Keys == a.Keys - {k};
      SumRemove(a, k);
      SumRemove(a + b, k);
      assert (a + b) - {k} == (a - {k}) + b;
      SumUnion(a - {k}, b);
    }
  }

  /** Folding some rows into one row keeps the sum. */
  lemma SumFold<K>(m: map<K, int>, part: map<K, int>, n: K)
    requires forall k :: k in part ==> k in m && m[k] == part[k]
    requires n !in part
    ensures Sum((m - part.Keys)[n := (if n in m then m[n] else 0) + Sum(part)]) == Sum(m)
  {
    var kept := m - part.Keys;
    assert m == part + kept;
    SumUnion(part, kept);
    SumUpdate(kept, n, (if n in m then m[n] else 0) + Sum(part));
    if n in kept {
      SumRemove(kept, n);
    } else {
      assert kept - {n} == kept;
    }
  }

  /** A sum of non-negative rows is zero exactly when every row is. */
  lemma {:induction false} SumOfNonNegative<K>(m: map<K, int>)
    requires forall k :: k in m ==> m[k] >= 0
    ensures Sum(m) >= 0
    ensures Sum(m) == 0 <==> forall k :: k in m ==> m[k] == 0
    decreases m.Keys
  {
    if m != map[] {
      var p :| p in m;
      assert (m - {p}).Keys == m.Keys - {p};
      SumRemove(m, p);
      SumOfNonNegative(m - {p});
      assert forall k :: k in m ==> k == p || k in m - {p};
    }
  }

  /** GROUP BY: the rows of `m` whose group is `x`. */
  ghost function Group<K, G>(m: map<K, int>, group: map<K, G>, x: G): map<K, int>
    requires m.Keys <= group.Keys
  {
    map k | k in m && group[k] == x :: m[k]
  }

  lemma EmptyGroup<K, G>(m: map<K, int>, group: map<K, G>, x: G)
    requires m.Keys <= group.Keys
    requires forall k :: k in m ==> group[k] != x
    ensures Sum(Group(m, group, x)) == 0
  {
    assert Group(m, group, x) == map[];
  }

  lemma SingleRowGroup<K, G>(m: map<K, int>, group: map<K, G>, k: K)
    requires m.Keys <= group.Keys && k in m
    requires forall j :: j in m && j != k ==> group[j] != group[k]
    ensures Sum(Group(m, group, group[k])) == m[k]
  {
    var rows := Group(m, group, group[k]);
    SumRemove(rows, k);
    assert rows - {k} == map[];
  }

  /** SELECT x, SUM(..) GROUP BY x, for the groups `xs`. */
  ghost function GroupSums<K, G>(m: map<K, int>, group: map<K, G>, xs: set<G>): map<G, int>
    requires m.Keys <= group.Keys
  {
    map x | x in xs :: Sum(Group(m, group, x))
  }

  /** Taking one row out of the table changes the sum of its own group only. */
  lemma GroupSumRemove<K, G>(m: map<K, int>, group: map<K, G>, k: K, x: G)
    requires m.Keys <= group.Keys && k in m
    ensures Sum(Group(m, group, x)) == Sum(Group(m - {k}, group, x)) + if x == group[k] then m[k] else 0
  {
    if x == group[k] {
      SumRemove(Group(m, group, x), k);
      assert Group(m, group, x) - {k} == Group(m - {k}, group, x);
    } else {
      assert Group(m, group, x) == Group(m - {k}, group, x);
    }
  }

  /** Taking one row out changes the group sums at its own group and nowhere else. */
  lemma GroupSumsRemove<K, G>(m: map<K, int>, group: map<K, G>, xs: set<G>, k: K)
    requires m.Keys <= group.Keys && k in m && group[k] in xs
    ensures Sum(GroupSums(m, group, xs)) == m[k] + Sum(GroupSums(m - {k}, group, xs))
  {
    hide Sum, Group;
    var sums, rest := GroupSums(m, group, xs), GroupSums(m - {k}, group, xs);
    forall x | x in xs ensures sums[x] == rest[x] + if x == group[k] then m[k] else 0 {
      GroupSumRemove(m, group, k, x);
    }
    SumRemove(sums, group[k]);
    SumRemove(rest, group[k]);
    assert sums - {group[k]} == rest - {group[k]};
  }

  lemma NoRowsNoGroupSums<K, G>(group: map<K, G>, xs: set<G>)
    ensures Sum(GroupSums(map[], group, xs)) == 0
  {
    var sums := GroupSums(map[], group, xs);
    forall x | x in xs ensures sums[x] == 0 {
      EmptyGroup(map[], group, x);
    }
    SumOfNonNegative(sums);
  }

  /** Summing the group sums over any set of groups that holds them all gives the sum of the whole table. */
  lemma {:induction false} SumOfGroups<K, G>(m: map<K, int>, group: map<K, G>, xs: set<G>)
    requires m.Keys <= group.Keys
    requires forall k :: k in m ==> group[k] in xs
    ensures Sum(GroupSums(m, group, xs)) == Sum(m)
    decreases m.Keys
  {
    if m == map[] {
      NoRowsNoGroupSums(group, xs);
    } else {
      var k :| k in m;
      assert (m - {k}).Keys == m.Keys - {k};
      SumRemove(m, k);
      hide Sum, Group, GroupSums;
      GroupSumsRemove(m, group, xs, k);
      SumOfGroups(m - {k}, group, xs);
    }
  }

  /** Coarser groups: when the old groups `xs` are exactly those that end up in the new group `x`, the new
      group's sum is the sum of theirs. */
  lemma RegroupedSum<K, G, H>(m: map<K, int>, group: map<K, G>, group': map<K, H>, xs: set<G>, x: H)
    requires m.Keys <= group.Keys && m.Keys <= group'.Keys
    requires forall k :: k in m ==> (group[k] in xs <==> group'[k] == x)
    ensures Sum(Group(m, group', x)) == Sum(GroupSums(m, group, xs))
  {
    var rows := Group(m, group', x);
    SumOfGroups(rows, group, xs);
    forall g | g in xs ensures Sum(Group(rows, group, g)) == Sum(Group(m, group, g)) {
      assert Group(rows, group, g) == Group(m, group, g);
    }
    assert GroupSums(rows, group, xs) == GroupSums(m, group, xs);
  }

  /** SELECT COUNT(*) WHERE v <> 0 */
  function CountNonZero<K>(m: map<K, int>): nat {
    |set k | k in m && m[k] != 0|
  }

  lemma NoneCounted<K>(m: map<K, int>)
    ensures CountNonZero(m) == 0 <==> forall k :: k in m ==> m[k] == 0
  {
    var counted := set k | k in m && m[k] != 0;
    if k :| k in m && m[k] != 0 {
      assert k in counted;
    } else {
      assert counted == {};
    }
  }

  /** SELECT DISTINCT group */
  function Groups<K, G>(m: map<K, int>, group: map<K, G>): set<G>
    requires m.Keys <= group.Keys
  {
    set k | k in m :: group[k]
  }

  /** SELECT SUM(v) .. GROUP BY key, reading the rows in any order. */
  method SumByKey<R, G(==)>(values: map<R, int>, keys: map<R, G>) returns (sums: map<G, int>)
    requires values.Keys <= keys.Keys
    ensures sums.Keys == Groups(values, keys)
    ensures forall k :: k in sums ==> sums[k] == Sum(Group(values, keys, k))
  {
    hide Sum, Group;
    sums := map[];
    var todo := values.Keys;
    assert values - todo == map[];
    while todo != {}
      invariant todo <= values.Keys
      invariant sums.Keys == Groups(values - todo, keys)
      invariant forall k :: k in sums ==> sums[k] == Sum(Group(values - todo, keys, k))
      decreases todo
    {
      var r := NextRow(todo);
      ghost var done, more := values - todo, values - (todo - {r});
      assert more - {r} == done && more.Keys == done.Keys + {r};
      forall k ensures Sum(Group(more, keys, k)) == Sum(Group(done, keys, k)) + if k == keys[r] then values[r] else 0 {
        GroupSumRemove(more, keys, r, k);
      }
      if keys[r] !in sums {
        EmptyGroup(done, keys, keys[r]);
      }
      sums := sums[keys[r] := values[r] + if keys[r] in sums then sums[keys[r]] else 0];
      todo := todo - {r};
    }
    assert values - todo == values;
  }
}
