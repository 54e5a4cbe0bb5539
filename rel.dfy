/** Relational operators over tables held as sequences of rows: WHERE as
    `Filter`, and `GROUP BY key` with `SUM(amount)`, `SUM(amount_2024)` and
    `COUNT(*)` as `GroupBy`. A table has no row order in SQL; `GroupBy` lists
    its groups in order of first appearance, and every property proved here
    holds whatever the order. */
module Rel {
  import opened Sql

  // ---------------------------------------------------------------------------
  // WHERE

  function Filter<T(!new)>(xs: seq<T>, p: T -> bool): (r: seq<T>)
    ensures |r| <= |xs|
    ensures forall x :: x in r <==> x in xs && p(x)
  {
    if xs == [] then []
    else
      assert xs == [xs[0]] + xs[1..];
      (if p(xs[0]) then [xs[0]] else []) + Filter(xs[1..], p)
  }

  lemma {:induction false} FilterAppend<T(!new)>(xs: seq<T>, ys: seq<T>, p: T -> bool)
    ensures Filter(xs + ys, p) == Filter(xs, p) + Filter(ys, p)
    decreases |xs|
  {
    if xs == [] {
      assert xs + ys == ys;
    } else {
      assert (xs + ys)[0] == xs[0] && (xs + ys)[1..] == xs[1..] + ys;
      FilterAppend(xs[1..], ys, p);
    }
  }

  lemma {:induction false} FilterNone<T(!new)>(xs: seq<T>, p: T -> bool)
    requires forall x :: x in xs ==> !p(x)
    ensures Filter(xs, p) == []
    decreases |xs|
  {
    if xs != [] {
      assert xs[0] in xs;
      FilterNone(xs[1..], p);
    }
  }

  /** A weaker condition keeps at least as many rows. */
  lemma {:induction false} FilterMonotone<T(!new)>(xs: seq<T>, p: T -> bool, q: T -> bool)
    requires forall x :: x in xs && p(x) ==> q(x)
    ensures |Filter(xs, p)| <= |Filter(xs, q)|
    decreases |xs|
  {
    if xs != [] {
      assert xs[0] in xs;
      assert forall x :: x in xs[1..] ==> x in xs;
      FilterMonotone(xs[1..], p, q);
    }
  }

  /** `COUNT(*) ... WHERE p`: the number of rows that satisfy `p`, no more
      than the table has. */
  function CountIf<T(!new)>(xs: seq<T>, p: T -> bool): (n: nat)
    ensures n <= |xs|
  {
    |Filter(xs, p)|
  }

  /** The count is 0 exactly when no row satisfies `p`. */
  lemma CountIfZero<T(!new)>(xs: seq<T>, p: T -> bool)
    ensures CountIf(xs, p) == 0 <==> forall x :: x in xs ==> !p(x)
  {
    var r := Filter(xs, p);
    if r != [] {
      assert r[0] in r;
    }
  }

  /** At most one row satisfies `p` when no two positions do. */
  lemma {:induction false} FilterAtMostOne<T(!new)>(xs: seq<T>, p: T -> bool)
    requires forall i, j :: 0 <= i < j < |xs| && p(xs[i]) ==> !p(xs[j])
    ensures |Filter(xs, p)| <= 1
    decreases |xs|
  {
    if xs != [] {
      var tail := xs[1..];
      assert forall i, j :: 0 <= i < j < |tail| && p(tail[i]) ==> !p(tail[j]) by {
        forall i, j | 0 <= i < j < |tail| && p(tail[i]) ensures !p(tail[j]) {
          assert tail[i] == xs[i + 1] && tail[j] == xs[j + 1];
        }
      }
      FilterAtMostOne(tail, p);
      if p(xs[0]) {
        forall x | x in tail ensures !p(x) {
          var j :| 0 <= j < |tail| && tail[j] == x;
          assert xs[j + 1] == x;
        }
        FilterNone(tail, p);
      }
    }
  }

  // ---------------------------------------------------------------------------
  // SELECT list and JOIN

  /** The SELECT list: one output row per input row, in order. */
  function Map<A, B>(xs: seq<A>, f: A -> B): (r: seq<B>)
    ensures |r| == |xs|
    ensures forall i :: 0 <= i < |xs| ==> r[i] == f(xs[i])
  {
    if xs == [] then [] else [f(xs[0])] + Map(xs[1..], f)
  }

  lemma MapMember<A(!new), B>(xs: seq<A>, f: A -> B, z: B)
    ensures z in Map(xs, f) <==> exists x :: x in xs && z == f(x)
  {
    var r := Map(xs, f);
    if z in r {
      var i :| 0 <= i < |r| && r[i] == z;
      assert xs[i] in xs;
    }
    if exists x :: x in xs && z == f(x) {
      var x :| x in xs && z == f(x);
      var i :| 0 <= i < |xs| && xs[i] == x;
      assert r[i] == z;
    }
  }

  /** Mapping commutes with dropping the last element. */
  lemma MapDropLast<A, B>(xs: seq<A>, f: A -> B)
    requires xs != []
    ensures Map(xs, f)[..|xs| - 1] == Map(xs[..|xs| - 1], f)
  {
  }

  lemma {:induction false} MapAppend<A, B>(xs: seq<A>, ys: seq<A>, f: A -> B)
    ensures Map(xs + ys, f) == Map(xs, f) + Map(ys, f)
  {
    assert forall i :: 0 <= i < |xs + ys| ==> Map(xs + ys, f)[i] == (Map(xs, f) + Map(ys, f))[i];
  }

  /** Filtering then projecting keeps multiplicities: an output row occurs as
      often as the input rows that pass and project to it. */
  /** The rows that pass `p` and project to `z`. */
  function PassesTo<A, B(==)>(p: A -> bool, f: A -> B, z: B): A -> bool {
    x => p(x) && f(x) == z
  }

  lemma {:induction false} MapFilterCount<A(!new), B>(xs: seq<A>, p: A -> bool, f: A -> B, z: B)
    ensures multiset(Map(Filter(xs, p), f))[z] == |Filter(xs, PassesTo(p, f, z))|
    decreases |xs|
  {
    if xs != [] {
      MapFilterCount(xs[1..], p, f, z);
      var head := if p(xs[0]) then [xs[0]] else [];
      assert Filter(xs, p) == head + Filter(xs[1..], p);
      MapAppend(head, Filter(xs[1..], p), f);
    }
  }

  /** `FROM xs INNER JOIN ys ON on(x, y)` with the SELECT list `f`: for each
      left row, one output row per matching right row. */
  function Join<A(!new), B(!new), C>(xs: seq<A>, ys: seq<B>, on: (A, B) -> bool, f: (A, B) -> C): seq<C>
  {
    if xs == [] then []
    else
      var x := xs[0];
      Map(Filter(ys, MatchWith(x, on)), y => f(x, y)) + Join(xs[1..], ys, on, f)
  }

  /** The right rows `x` joins with. */
  function MatchWith<A, B>(x: A, on: (A, B) -> bool): B -> bool {
    y => on(x, y)
  }

  /** The number of right rows that match `x`. */
  function Matches<A, B(!new)>(x: A, ys: seq<B>, on: (A, B) -> bool): nat {
    |Filter(ys, MatchWith(x, on))|
  }

  /** A left row matches at most one right row when no two positions match it. */
  lemma MatchesAtMostOne<A, B(!new)>(x: A, ys: seq<B>, on: (A, B) -> bool)
    requires forall i, j :: 0 <= i < j < |ys| && on(x, ys[i]) ==> !on(x, ys[j])
    ensures Matches(x, ys, on) <= 1
  {
    FilterAtMostOne(ys, MatchWith(x, on));
  }

  /** The sum, over the left rows, of their numbers of matches. */
  function MatchTotal<A, B(!new)>(xs: seq<A>, ys: seq<B>, on: (A, B) -> bool): nat {
    if xs == [] then 0 else Matches(xs[0], ys, on) + MatchTotal(xs[1..], ys, on)
  }

  /** A join row exists exactly for each matching pair of rows. */
  lemma {:induction false} JoinMember<A(!new), B(!new), C>(xs: seq<A>, ys: seq<B>, on: (A, B) -> bool, f: (A, B) -> C, z: C)
    ensures z in Join(xs, ys, on, f) <==> exists x, y :: x in xs && y in ys && on(x, y) && z == f(x, y)
    decreases |xs|
  {
    if xs != [] {
      var x := xs[0];
      var ms := Filter(ys, MatchWith(x, on));
      JoinMember(xs[1..], ys, on, f, z);
      MapMember(ms, y => f(x, y), z);
      assert xs == [x] + xs[1..];
      if exists x', y :: x' in xs && y in ys && on(x', y) && z == f(x', y) {
        var x', y :| x' in xs && y in ys && on(x', y) && z == f(x', y);
        if x' == x {
          assert y in ms;
        } else {
          assert x' in xs[1..];
        }
      }
    }
  }

  /** Each left row contributes one output row per match. */
  lemma {:induction false} JoinLength<A(!new), B(!new), C>(xs: seq<A>, ys: seq<B>, on: (A, B) -> bool, f: (A, B) -> C)
    ensures |Join(xs, ys, on, f)| == MatchTotal(xs, ys, on)
    decreases |xs|
  {
    if xs != [] { JoinLength(xs[1..], ys, on, f); }
  }

  /** When no left row matches more than one right row, the join has at most
      as many rows as its left side. */
  lemma {:induction false} MatchTotalAtMost<A, B(!new)>(xs: seq<A>, ys: seq<B>, on: (A, B) -> bool)
    requires forall x :: x in xs ==> Matches(x, ys, on) <= 1
    ensures MatchTotal(xs, ys, on) <= |xs|
    decreases |xs|
  {
    if xs != [] {
      assert xs[0] in xs;
      assert forall x :: x in xs[1..] ==> x in xs;
      MatchTotalAtMost(xs[1..], ys, on);
    }
  }

  // ---------------------------------------------------------------------------
  // GROUP BY

  /** A row reduced to its grouping key and its two summed measures. */
  datatype Keyed<K> = Keyed(key: K, amount: Option<real>, amount2024: Option<real>)

  /** One output row of the aggregate: `SUM(amount)`, `SUM(amount_2024)`, `COUNT(*)`. */
  datatype Group<K> = Group(key: K, total: Option<real>, total2024: Option<real>, count: nat)

  /** Folds one more row into the group it belongs to (or starts that group). */
  function Absorb<K>(g: Option<Group<K>>, r: Keyed<K>): Group<K> {
    match g
    case None => Group(r.key, Plus(None, r.amount), Plus(None, r.amount2024), 1)
    case Some(h) => Group(h.key, Plus(h.total, r.amount), Plus(h.total2024, r.amount2024), h.count + 1)
  }

  function AddRow<K(==)>(gs: seq<Group<K>>, r: Keyed<K>): seq<Group<K>> {
    if gs == [] then [Absorb(None, r)]
    else if gs[0].key == r.key then [Absorb(Some(gs[0]), r)] + gs[1..]
    else [gs[0]] + AddRow(gs[1..], r)
  }

  function GroupBy<K(==)>(rows: seq<Keyed<K>>): seq<Group<K>> {
    if rows == [] then [] else AddRow(GroupBy(rows[..|rows| - 1]), rows[|rows| - 1])
  }

  /** The group with key `k`, if there is one. */
  function Find<K(==)>(gs: seq<Group<K>>, k: K): Option<Group<K>> {
    if gs == [] then None else if gs[0].key == k then Some(gs[0]) else Find(gs[1..], k)
  }

  predicate DistinctKeys<K(==)>(gs: seq<Group<K>>) {
    forall i, j :: 0 <= i < j < |gs| ==> gs[i].key != gs[j].key
  }

  /** Two lists of groups with distinct keys and no key in common concatenate
      to a list with distinct keys. */
  lemma DistinctAppend<K>(a: seq<Group<K>>, b: seq<Group<K>>)
    requires DistinctKeys(a) && DistinctKeys(b)
    requires forall g, h :: g in a && h in b ==> g.key != h.key
    ensures DistinctKeys(a + b)
  {
    var c := a + b;
    forall i, j | 0 <= i < j < |c| ensures c[i].key != c[j].key {
      if j < |a| {
        assert c[i] == a[i] && c[j] == a[j];
      } else if i >= |a| {
        assert c[i] == b[i - |a|] && c[j] == b[j - |a|];
      } else {
        assert c[i] == a[i] && c[j] == b[j - |a|];
      }
    }
  }

  function KeySet<K>(gs: seq<Group<K>>): set<K> {
    set g | g in gs :: g.key
  }

  // Reference definitions: what a group should hold, computed from the input rows.

  function WithKey<K(==)>(rows: seq<Keyed<K>>, k: K): seq<Keyed<K>> {
    if rows == [] then []
    else WithKey(rows[..|rows| - 1], k) + (if rows[|rows| - 1].key == k then [rows[|rows| - 1]] else [])
  }

  function Amounts<K>(rows: seq<Keyed<K>>): (r: seq<Option<real>>)
    ensures |r| == |rows|
  {
    seq(|rows|, i requires 0 <= i < |rows| => rows[i].amount)
  }

  function Amounts2024<K>(rows: seq<Keyed<K>>): (r: seq<Option<real>>)
    ensures |r| == |rows|
  {
    seq(|rows|, i requires 0 <= i < |rows| => rows[i].amount2024)
  }

  /** The group SQL produces for key `k`: absent when no row has that key,
      otherwise the SUMs and the COUNT over exactly the rows with that key. */
  function Expected<K(==)>(rows: seq<Keyed<K>>, k: K): Option<Group<K>> {
    var m := WithKey(rows, k);
    if m == [] then None else Some(Group(k, SqlSum(Amounts(m)), SqlSum(Amounts2024(m)), |m|))
  }

  lemma {:induction false} FindAddRow<K>(gs: seq<Group<K>>, r: Keyed<K>, k: K)
    ensures Find(AddRow(gs, r), k) == if k == r.key then Some(Absorb(Find(gs, k), r)) else Find(gs, k)
    decreases |gs|
  {
    if gs != [] && gs[0].key != r.key {
      FindAddRow(gs[1..], r, k);
    }
  }

  lemma {:induction false} FindKeepsKey<K>(gs: seq<Group<K>>, k: K)
    ensures Find(gs, k).Some? ==> Find(gs, k).value.key == k && Find(gs, k).value in gs
    decreases |gs|
  {
    if gs != [] && gs[0].key != k { FindKeepsKey(gs[1..], k); }
  }

  /** Each group of the result holds exactly the SUMs and COUNT of its key's rows. */
  lemma {:induction false} GroupByFind<K>(rows: seq<Keyed<K>>, k: K)
    ensures Find(GroupBy(rows), k) == Expected(rows, k)
    decreases |rows|
  {
    if rows != [] {
      var init, last := rows[..|rows| - 1], rows[|rows| - 1];
      GroupByFind(init, k);
      FindAddRow(GroupBy(init), last, k);
      var m := WithKey(init, k);
      if k == last.key {
        var m' := m + [last];
        assert WithKey(rows, k) == m';
        assert Amounts(m')[..|m|] == Amounts(m);
        assert Amounts2024(m')[..|m|] == Amounts2024(m);
        assert Amounts(m')[|m|] == last.amount;
        assert Amounts2024(m')[|m|] == last.amount2024;
        if m == [] {
          assert Amounts(m')[..0] == [];
          assert Amounts2024(m')[..0] == [];
        }
      } else {
        assert WithKey(rows, k) == m;
      }
    }
  }

  lemma KeySetCons<K>(g: Group<K>, gs: seq<Group<K>>)
    ensures KeySet([g] + gs) == {g.key} + KeySet(gs)
  {
    assert forall h :: h in [g] + gs <==> h == g || h in gs;
  }

  lemma {:induction false} AddRowKeySet<K>(gs: seq<Group<K>>, r: Keyed<K>)
    ensures KeySet(AddRow(gs, r)) == KeySet(gs) + {r.key}
    decreases |gs|
  {
    if gs == [] {
      assert KeySet(AddRow(gs, r)) == {r.key} by {
        assert AddRow(gs, r) == [Absorb(None, r)];
      }
    } else {
      var tail := gs[1..];
      assert gs == [gs[0]] + tail;
      KeySetCons(gs[0], tail);
      if gs[0].key == r.key {
        var h := Absorb(Some(gs[0]), r);
        assert AddRow(gs, r) == [h] + tail && h.key == r.key;
        KeySetCons(h, tail);
      } else {
        AddRowKeySet(tail, r);
        assert AddRow(gs, r) == [gs[0]] + AddRow(tail, r);
        KeySetCons(gs[0], AddRow(tail, r));
      }
    }
  }

  lemma {:induction false} AddRowKeys<K>(gs: seq<Group<K>>, r: Keyed<K>)
    requires DistinctKeys(gs)
    ensures KeySet(AddRow(gs, r)) == KeySet(gs) + {r.key}
    ensures DistinctKeys(AddRow(gs, r))
    decreases |gs|
  {
    AddRowKeySet(gs, r);
    if gs == [] {
    } else if gs[0].key == r.key {
      var out := AddRow(gs, r);
      assert out == [Absorb(Some(gs[0]), r)] + gs[1..];
      forall i, j | 0 <= i < j < |out| ensures out[i].key != out[j].key {
        assert out[j] == gs[j];
        if i > 0 {
          assert out[i] == gs[i];
        }
      }
    } else {
      var tail := gs[1..];
      AddRowKeys(tail, r);
      var rest := AddRow(tail, r);
      var out := AddRow(gs, r);
      assert out == [gs[0]] + rest;
      forall j | 0 <= j < |rest| ensures gs[0].key != rest[j].key {
        assert rest[j] in rest;
        assert rest[j].key in KeySet(tail) + {r.key};
        if rest[j].key in KeySet(tail) {
          var g :| g in tail && g.key == rest[j].key;
          var i :| 0 <= i < |tail| && tail[i] == g;
          assert gs[i + 1] == g;
        }
      }
      forall i, j | 0 <= i < j < |out| ensures out[i].key != out[j].key {
        assert out[j] == rest[j - 1];
        if i > 0 {
          assert out[i] == rest[i - 1];
        }
      }
    }
  }

  /** The result has one group per distinct key. */
  lemma {:induction false} GroupByDistinct<K>(rows: seq<Keyed<K>>)
    ensures DistinctKeys(GroupBy(rows))
    ensures KeySet(GroupBy(rows)) == set r | r in rows :: r.key
    decreases |rows|
  {
    if rows != [] {
      var init, last := rows[..|rows| - 1], rows[|rows| - 1];
      GroupByDistinct(init);
      AddRowKeys(GroupBy(init), last);
      assert rows == init + [last];
      assert (set r | r in rows :: r.key) == (set r | r in init :: r.key) + {last.key};
    }
  }

  lemma {:induction false} FindDistinct<K>(gs: seq<Group<K>>, g: Group<K>)
    requires DistinctKeys(gs) && g in gs
    ensures Find(gs, g.key) == Some(g)
    decreases |gs|
  {
    if gs[0] != g {
      var i :| 0 <= i < |gs| && gs[i] == g;
      assert i > 0;
      assert gs[1..][i - 1] == g;
      FindDistinct(gs[1..], g);
    }
  }

  /** Any row of the result describes exactly the input rows with its key. */
  lemma GroupByMember<K>(rows: seq<Keyed<K>>, g: Group<K>)
    requires g in GroupBy(rows)
    ensures Expected(rows, g.key) == Some(g)
    ensures g.count == |WithKey(rows, g.key)| > 0
  {
    GroupByDistinct(rows);
    FindDistinct(GroupBy(rows), g);
    GroupByFind(rows, g.key);
  }

  /** The rows `WithKey` collects are exactly the input rows with that key. */
  lemma {:induction false} WithKeyMember<K>(rows: seq<Keyed<K>>, k: K, r: Keyed<K>)
    ensures r in WithKey(rows, k) <==> r in rows && r.key == k
    decreases |rows|
  {
    if rows != [] {
      var init := rows[..|rows| - 1];
      WithKeyMember(init, k, r);
      assert rows == init + [rows[|rows| - 1]];
    }
  }

  // ---------------------------------------------------------------------------
  // NULL sums

  /** Some output row has `SUM(amount_2024)` NULL. */
  predicate SomeNullSum2024<K(==)>(rows: seq<Keyed<K>>) {
    exists g :: g in GroupBy(rows) && g.total2024.None?
  }

  /** Every input row with key `k` has a NULL `amount_2024`. */
  predicate AllNull2024<K(==)>(rows: seq<Keyed<K>>, k: K) {
    forall r :: r in rows && r.key == k ==> r.amount2024.None?
  }

  /** A group's SUM is NULL exactly when all the rows of its key are NULL:
      some output row has a NULL `SUM(amount_2024)` iff some input row's key
      has nothing but NULLs. */
  lemma NullSumIff<K>(rows: seq<Keyed<K>>)
    ensures SomeNullSum2024(rows) <==> exists r :: r in rows && AllNull2024(rows, r.key)
  {
    if SomeNullSum2024(rows) {
      var g :| g in GroupBy(rows) && g.total2024.None?;
      NullGroupRows(rows, g);
    }
    if exists r :: r in rows && AllNull2024(rows, r.key) {
      var r :| r in rows && AllNull2024(rows, r.key);
      NullKeyGroup(rows, r);
    }
  }

  lemma NullGroupRows<K>(rows: seq<Keyed<K>>, g: Group<K>)
    requires g in GroupBy(rows) && g.total2024.None?
    ensures exists r :: r in rows && AllNull2024(rows, r.key)
  {
    GroupByMember(rows, g);
    var m := WithKey(rows, g.key);
    assert SqlSum(Amounts2024(m)) == None;
    WithKeyMember(rows, g.key, m[0]);
    forall r | r in rows && r.key == g.key ensures r.amount2024.None? {
      WithKeyMember(rows, g.key, r);
      var l :| 0 <= l < |m| && m[l] == r;
      assert Amounts2024(m)[l] == r.amount2024;
    }
    assert AllNull2024(rows, m[0].key);
  }

  lemma NullKeyGroup<K>(rows: seq<Keyed<K>>, r: Keyed<K>)
    requires r in rows && AllNull2024(rows, r.key)
    ensures SomeNullSum2024(rows)
  {
    var k := r.key;
    var m := WithKey(rows, k);
    WithKeyMember(rows, k, r);
    forall l | 0 <= l < |m| ensures Amounts2024(m)[l].None? {
      WithKeyMember(rows, k, m[l]);
    }
    GroupByFind(rows, k);
    FindKeepsKey(GroupBy(rows), k);
    assert Find(GroupBy(rows), k).value.total2024.None?;
  }

  // ---------------------------------------------------------------------------
  // Losslessness: the group totals add up to the input totals

  function CountWhere<K>(rows: seq<Keyed<K>>, p: K -> bool): nat {
    if rows == [] then 0
    else CountWhere(rows[..|rows| - 1], p) + (if p(rows[|rows| - 1].key) then 1 else 0)
  }

  function AmountWhere<K>(rows: seq<Keyed<K>>, p: K -> bool): real {
    if rows == [] then 0.0
    else AmountWhere(rows[..|rows| - 1], p) + (if p(rows[|rows| - 1].key) then OrZero(rows[|rows| - 1].amount) else 0.0)
  }

  function Amount2024Where<K>(rows: seq<Keyed<K>>, p: K -> bool): real {
    if rows == [] then 0.0
    else Amount2024Where(rows[..|rows| - 1], p) + (if p(rows[|rows| - 1].key) then OrZero(rows[|rows| - 1].amount2024) else 0.0)
  }

  /** `SUM(n_transactions)` over the output rows whose key satisfies `p`. */
  function SumCounts<K>(gs: seq<Group<K>>, p: K -> bool): nat {
    if gs == [] then 0 else (if p(gs[0].key) then gs[0].count else 0) + SumCounts(gs[1..], p)
  }

  /** `SUM(total_amount)` over the output rows whose key satisfies `p`. */
  function SumTotals<K>(gs: seq<Group<K>>, p: K -> bool): real {
    if gs == [] then 0.0 else (if p(gs[0].key) then OrZero(gs[0].total) else 0.0) + SumTotals(gs[1..], p)
  }

  /** `SUM(total_amount_2024)` over the output rows whose key satisfies `p`. */
  function SumTotals2024<K>(gs: seq<Group<K>>, p: K -> bool): real {
    if gs == [] then 0.0 else (if p(gs[0].key) then OrZero(gs[0].total2024) else 0.0) + SumTotals2024(gs[1..], p)
  }

  lemma {:induction false} SumsAddRow<K>(gs: seq<Group<K>>, r: Keyed<K>, p: K -> bool)
    ensures SumCounts(AddRow(gs, r), p) == SumCounts(gs, p) + (if p(r.key) then 1 else 0)
    ensures SumTotals(AddRow(gs, r), p) == SumTotals(gs, p) + (if p(r.key) then OrZero(r.amount) else 0.0)
    ensures SumTotals2024(AddRow(gs, r), p) == SumTotals2024(gs, p) + (if p(r.key) then OrZero(r.amount2024) else 0.0)
    decreases |gs|
  {
    if gs != [] {
      if gs[0].key == r.key {
        assert AddRow(gs, r)[1..] == gs[1..];
      } else {
        SumsAddRow(gs[1..], r, p);
        assert AddRow(gs, r)[1..] == AddRow(gs[1..], r);
      }
    }
  }

  /** Grouping loses nothing: over any set of keys, the output's COUNT and SUM
      columns add up to the number and the amounts of the input rows. */
  lemma {:induction false} GroupByLossless<K>(rows: seq<Keyed<K>>, p: K -> bool)
    ensures SumCounts(GroupBy(rows), p) == CountWhere(rows, p)
    ensures SumTotals(GroupBy(rows), p) == AmountWhere(rows, p)
    ensures SumTotals2024(GroupBy(rows), p) == Amount2024Where(rows, p)
    decreases |rows|
  {
    if rows != [] {
      GroupByLossless(rows[..|rows| - 1], p);
      SumsAddRow(GroupBy(rows[..|rows| - 1]), rows[|rows| - 1], p);
    }
  }

  lemma {:induction false} SumsAppend<K>(a: seq<Group<K>>, b: seq<Group<K>>, p: K -> bool)
    ensures SumCounts(a + b, p) == SumCounts(a, p) + SumCounts(b, p)
    ensures SumTotals(a + b, p) == SumTotals(a, p) + SumTotals(b, p)
    ensures SumTotals2024(a + b, p) == SumTotals2024(a, p) + SumTotals2024(b, p)
    decreases |a|
  {
    if a == [] {
      assert a + b == b;
    } else {
      assert (a + b)[0] == a[0] && (a + b)[1..] == a[1..] + b;
      SumsAppend(a[1..], b, p);
    }
  }
}
