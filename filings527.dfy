/** `create_exp527_aligned`: 527 organisation expenditures, each joined with
    the partisan view point its committee declared in its latest filing year. */
module Filings527 {
  import opened Sql
  import opened Rel
  import opened Classify
  import opened Cpi

  /** A row of the raw `cmtes_527` table. */
  datatype Cmte527 = Cmte527(
    year: Field, quarterYr: Field, ein: Field, orgName: Field, shortName: Field,
    cmteName: Field, cmteType: Field, affiliate1: Field, affiliate2: Field, affiliate3: Field,
    party: Field, primCode: Field, source: Field, filingType: Field, ctype: Field,
    filingInfo: Field, viewPt: Field, extra: Field, state: Field)

  /** A row of the raw `expenditures_527` table. */
  datatype Expenditure527 = Expenditure527(
    quarterYr: Field, ein: Field, transSeqNo: Field, cmteName: Field, paidByEin: Field,
    payeeShort: Field, payeeLong: Field, amount: Field, date: Field, expCategoryCode: Field,
    status: Field, description: Field, addr1: Field, addr2: Field, city: Field,
    state: Field, zip: Field, recipName: Field, recipTitle: Field)

  /** A row of the temporary `_tmp_cmte527_latest` lookup. */
  datatype Latest = Latest(ein: Field, viewPt: Field, ctype: Field)

  /** A row of `exp527_aligned`. */
  datatype Exp527 = Exp527(
    quarterYr: Field, ein: Field, transSeqNo: Field, cmteName: Field, paidByEin: Field,
    payee: Field, amount: Field, amountReal: Option<real>, date: Field, expCategoryCode: Field,
    description: Field, city: Field, state: Field, viewPt: Field, ctype: Field,
    direction: Direction, cycle: Field, era: Option<Era>, amount2024: Option<real>)

  // ---------------------------------------------------------------------------
  // The latest filing per EIN

  function WithEin(ein: string): Cmte527 -> bool {
    (c: Cmte527) => Is(c.ein, ein)
  }

  function YearOf(c: Cmte527): Field { c.year }

  /** `SELECT EIN, MAX(Year) FROM cmtes_527 GROUP BY EIN`, for one EIN: the
      greatest Year text of its rows, NULL when all of them are NULL. */
  function MaxYear(cmtes: seq<Cmte527>, ein: string): Field {
    MaxField(Map(Filter(cmtes, WithEin(ein)), YearOf))
  }

  /** `c1.EIN = c2.EIN AND c1.Year = c2.MaxYear`: the row is from its EIN's
      latest year. */
  predicate AtMaxYear(cmtes: seq<Cmte527>, c: Cmte527) {
    c.ein.Some? && SameText(c.year, MaxYear(cmtes, c.ein.value))
  }

  function Project(c: Cmte527): Latest {
    Latest(c.ein, c.viewPt, c.ctype)
  }

  /** An EIN names at most one lookup row. */
  predicate DistinctEins(lk: seq<Latest>) {
    forall i, j :: 0 <= i < j < |lk| ==> lk[i].ein != lk[j].ein
  }

  /** Every table SQLite may build for `_tmp_cmte527_latest`: `GROUP BY c1.EIN`
      keeps one row per EIN, taking its ViewPt and Ctype from some one row of
      that EIN's latest year; which row, when several share that year, is up
      to SQLite. */
  predicate ValidLatest(cmtes: seq<Cmte527>, lk: seq<Latest>) {
    && (forall l :: l in lk ==> exists c :: c in cmtes && AtMaxYear(cmtes, c) && l == Project(c))
    && DistinctEins(lk)
    && (forall c :: c in cmtes && AtMaxYear(cmtes, c) ==> c.ein in Eins(lk))
  }

  function Eins(lk: seq<Latest>): set<Field> {
    set l | l in lk :: l.ein
  }

  /** A row at its EIN's latest year is at least as late as every row of that EIN. */
  lemma AtMaxYearIsLatest(cmtes: seq<Cmte527>, c: Cmte527, c': Cmte527)
    requires AtMaxYear(cmtes, c) && c' in cmtes && c'.ein == c.ein && c'.year.Some?
    ensures TextLe(c'.year.value, c.year.value)
  {
    var mine := Filter(cmtes, WithEin(c.ein.value));
    assert c' in mine;
    MapMember(mine, YearOf, c'.year);
  }

  /** No other filing of the EIN postdates `c`, comparing Year as text. */
  predicate LatestOfEin(cmtes: seq<Cmte527>, c: Cmte527) {
    c.year.Some? && forall c' :: c' in cmtes && c'.ein == c.ein && c'.year.Some? ==> TextLe(c'.year.value, c.year.value)
  }

  /** The lookup row of an EIN comes from a filing that no other filing of
      that EIN postdates. */
  lemma LatestIsLatest(cmtes: seq<Cmte527>, lk: seq<Latest>, l: Latest)
    requires ValidLatest(cmtes, lk) && l in lk
    ensures l.ein.Some?
    ensures exists c :: c in cmtes && Project(c) == l && LatestOfEin(cmtes, c)
  {
    var c :| c in cmtes && AtMaxYear(cmtes, c) && l == Project(c);
    forall c' | c' in cmtes && c'.ein == c.ein && c'.year.Some? ensures TextLe(c'.year.value, c.year.value) {
      AtMaxYearIsLatest(cmtes, c, c');
    }
    assert LatestOfEin(cmtes, c);
  }

  /** Is `cmtes[k]` the first row of its EIN's latest year? */
  predicate FirstAtMax(cmtes: seq<Cmte527>, k: nat)
    requires k < |cmtes|
  {
    && AtMaxYear(cmtes, cmtes[k])
    && forall j :: 0 <= j < k ==> !(AtMaxYear(cmtes, cmtes[j]) && cmtes[j].ein == cmtes[k].ein)
  }

  function LatestFrom(cmtes: seq<Cmte527>, k: nat): seq<Latest>
    requires k <= |cmtes|
    decreases |cmtes| - k
  {
    if k == |cmtes| then []
    else (if FirstAtMax(cmtes, k) then [Project(cmtes[k])] else []) + LatestFrom(cmtes, k + 1)
  }

  /** One way SQLite may fill the lookup: the first row of each EIN's latest year. */
  function LatestLookup(cmtes: seq<Cmte527>): seq<Latest> {
    LatestFrom(cmtes, 0)
  }

  /** The rows `LatestFrom` adds at position `k`. */
  function PickAt(cmtes: seq<Cmte527>, k: nat): seq<Latest>
    requires k < |cmtes|
  {
    if FirstAtMax(cmtes, k) then [Project(cmtes[k])] else []
  }

  lemma LatestFromStep(cmtes: seq<Cmte527>, k: nat)
    requires k < |cmtes|
    ensures LatestFrom(cmtes, k) == PickAt(cmtes, k) + LatestFrom(cmtes, k + 1)
  {
  }

  lemma InConcat(a: seq<Latest>, b: seq<Latest>, x: Latest)
    ensures x in a + b <==> x in a || x in b
  {
  }

  /** Each lookup row comes from the first row of its EIN's latest year. */
  lemma {:induction false} LatestFromOrigin(cmtes: seq<Cmte527>, k: nat)
    requires k <= |cmtes|
    ensures forall l :: l in LatestFrom(cmtes, k) ==>
      exists i :: k <= i < |cmtes| && FirstAtMax(cmtes, i) && l == Project(cmtes[i])
    decreases |cmtes| - k
  {
    if k < |cmtes| {
      LatestFromOrigin(cmtes, k + 1);
      LatestFromStep(cmtes, k);
      forall l | l in LatestFrom(cmtes, k)
        ensures exists i :: k <= i < |cmtes| && FirstAtMax(cmtes, i) && l == Project(cmtes[i])
      {
        InConcat(PickAt(cmtes, k), LatestFrom(cmtes, k + 1), l);
        if l in PickAt(cmtes, k) {
          assert FirstAtMax(cmtes, k) && l == Project(cmtes[k]);
        } else {
          var i :| k + 1 <= i < |cmtes| && FirstAtMax(cmtes, i) && l == Project(cmtes[i]);
        }
      }
    }
  }

  /** Two first rows of latest years belong to different EINs. */
  lemma FirstAtMaxDistinct(cmtes: seq<Cmte527>, k: nat, i: nat)
    requires k < i < |cmtes| && FirstAtMax(cmtes, k) && FirstAtMax(cmtes, i)
    ensures Project(cmtes[k]).ein != Project(cmtes[i]).ein
  {
    assert !(AtMaxYear(cmtes, cmtes[k]) && cmtes[k].ein == cmtes[i].ein);
  }

  /** The rows added after a first row of a latest year have other EINs. */
  lemma LaterEinsDiffer(cmtes: seq<Cmte527>, k: nat)
    requires k < |cmtes| && FirstAtMax(cmtes, k)
    ensures forall l :: l in LatestFrom(cmtes, k + 1) ==> l.ein != Project(cmtes[k]).ein
  {
    LatestFromOrigin(cmtes, k + 1);
    forall l | l in LatestFrom(cmtes, k + 1) ensures l.ein != Project(cmtes[k]).ein {
      var i :| k + 1 <= i < |cmtes| && FirstAtMax(cmtes, i) && l == Project(cmtes[i]);
      FirstAtMaxDistinct(cmtes, k, i);
    }
  }

  lemma DistinctCons(x: Latest, tail: seq<Latest>)
    requires DistinctEins(tail) && forall l :: l in tail ==> l.ein != x.ein
    ensures DistinctEins([x] + tail)
  {
    var r := [x] + tail;
    forall i, j | 0 <= i < j < |r| ensures r[i].ein != r[j].ein {
      assert r[j] == tail[j - 1] && r[j] in tail;
      if i > 0 {
        assert r[i] == tail[i - 1];
      }
    }
  }

  lemma {:induction false} LatestFromDistinct(cmtes: seq<Cmte527>, k: nat)
    requires k <= |cmtes|
    ensures DistinctEins(LatestFrom(cmtes, k))
    decreases |cmtes| - k
  {
    if k < |cmtes| {
      LatestFromDistinct(cmtes, k + 1);
      LatestFromStep(cmtes, k);
      var tail := LatestFrom(cmtes, k + 1);
      if FirstAtMax(cmtes, k) {
        LaterEinsDiffer(cmtes, k);
        DistinctCons(Project(cmtes[k]), tail);
      } else {
        assert PickAt(cmtes, k) + tail == tail;
      }
    }
  }

  lemma {:induction false} LatestFromHas(cmtes: seq<Cmte527>, k: nat, j: nat)
    requires k <= j < |cmtes| && FirstAtMax(cmtes, j)
    ensures Project(cmtes[j]) in LatestFrom(cmtes, k)
    decreases j - k
  {
    LatestFromStep(cmtes, k);
    InConcat(PickAt(cmtes, k), LatestFrom(cmtes, k + 1), Project(cmtes[j]));
    if k < j {
      LatestFromHas(cmtes, k + 1, j);
    } else {
      assert Project(cmtes[j]) in PickAt(cmtes, k);
    }
  }

  lemma {:induction false} FirstAtMaxExists(cmtes: seq<Cmte527>, k: nat)
    requires k < |cmtes| && AtMaxYear(cmtes, cmtes[k])
    ensures exists j :: 0 <= j <= k && FirstAtMax(cmtes, j) && cmtes[j].ein == cmtes[k].ein
    decreases k
  {
    if !FirstAtMax(cmtes, k) {
      var j :| 0 <= j < k && AtMaxYear(cmtes, cmtes[j]) && cmtes[j].ein == cmtes[k].ein;
      FirstAtMaxExists(cmtes, j);
    }
  }

  /** The first-row choice is one of the tables SQLite may build. */
  lemma LatestLookupValid(cmtes: seq<Cmte527>)
    ensures ValidLatest(cmtes, LatestLookup(cmtes))
  {
    var lk := LatestLookup(cmtes);
    LatestFromOrigin(cmtes, 0);
    LatestFromDistinct(cmtes, 0);
    forall c | c in cmtes && AtMaxYear(cmtes, c) ensures c.ein in Eins(lk) {
      var k :| 0 <= k < |cmtes| && cmtes[k] == c;
      FirstAtMaxExists(cmtes, k);
      var j :| 0 <= j <= k && FirstAtMax(cmtes, j) && cmtes[j].ein == cmtes[k].ein;
      LatestFromHas(cmtes, 0, j);
      assert Project(cmtes[j]).ein == c.ein;
    }
  }

  // ---------------------------------------------------------------------------
  // exp527_aligned

  /** `LEFT JOIN _tmp_cmte527_latest cv ON e.EIN = cv.EIN`. */
  function EinMatch(e: Expenditure527): Latest -> bool {
    (l: Latest) => SameText(e.ein, l.ein)
  }

  function Paired(e: Expenditure527): Latest -> (Expenditure527, Option<Latest>) {
    (l: Latest) => (e, Some(l))
  }

  /** The LEFT JOIN: an expenditure with no lookup row is kept once, with
      NULL lookup columns. */
  function LeftJoinLatest(exps: seq<Expenditure527>, lk: seq<Latest>): seq<(Expenditure527, Option<Latest>)> {
    if exps == [] then []
    else
      var e := exps[0];
      var ms := Filter(lk, EinMatch(e));
      (if ms == [] then [(e, None)] else Map(ms, Paired(e))) + LeftJoinLatest(exps[1..], lk)
  }

  /** `WHERE cv.Ctype = 'F' AND (CYCLE_FROM_QUARTER) IS NOT NULL`: a NULL
      Ctype from an unmatched expenditure fails the test. */
  predicate Kept527(row: (Expenditure527, Option<Latest>)) {
    row.1.Some? && Is(row.1.value.ctype, "F") && CycleFromQuarter(row.0.quarterYr).Some?
  }

  function MakeExp527(cpi: CpiTable, row: (Expenditure527, Option<Latest>)): Exp527 {
    var e := row.0;
    var viewPt := if row.1.Some? then row.1.value.viewPt else None;
    var ctype := if row.1.Some? then row.1.value.ctype else None;
    var cycle := CycleFromQuarter(e.quarterYr);
    var amount := Amount(e.amount);
    Exp527(
      e.quarterYr, e.ein, e.transSeqNo, e.cmteName, e.paidByEin,
      e.payeeLong, e.amount, amount, e.date, e.expCategoryCode,
      e.description, e.city, e.state, viewPt, ctype,
      ViewPtDirection(viewPt), cycle, EraFromCycle(cycle), Amount2024(amount, cpi, cycle))
  }

  function Exp527Row(cpi: CpiTable): ((Expenditure527, Option<Latest>)) -> Exp527 {
    (row: (Expenditure527, Option<Latest>)) => MakeExp527(cpi, row)
  }

  /** `exp527_aligned`. */
  function Exp527Aligned(exps: seq<Expenditure527>, lk: seq<Latest>, cpi: CpiTable): seq<Exp527> {
    Map(Filter(LeftJoinLatest(exps, lk), Kept527), Exp527Row(cpi))
  }

  lemma {:induction false} LeftJoinMember(exps: seq<Expenditure527>, lk: seq<Latest>, e: Expenditure527, l: Latest)
    ensures (e, Some(l)) in LeftJoinLatest(exps, lk) <==> e in exps && l in lk && SameText(e.ein, l.ein)
    decreases |exps|
  {
    if exps != [] {
      var e0 := exps[0];
      var ms := Filter(lk, EinMatch(e0));
      LeftJoinMember(exps[1..], lk, e, l);
      MapMember(ms, Paired(e0), (e, Some(l)));
      assert exps == [e0] + exps[1..];
      if e == e0 && l in lk && SameText(e.ein, l.ein) {
        assert l in ms;
      }
    }
  }

  /** The left join followed by `cv.Ctype = 'F'` is an inner join: a row is in
      the table exactly when an expenditure with a known cycle meets a
      federal-focus lookup row of its EIN. */
  lemma Exp527Member(exps: seq<Expenditure527>, lk: seq<Latest>, cpi: CpiTable, z: Exp527)
    ensures z in Exp527Aligned(exps, lk, cpi) <==>
      exists e, l :: (e in exps && l in lk && SameText(e.ein, l.ein) && Is(l.ctype, "F")
                      && CycleFromQuarter(e.quarterYr).Some? && z == MakeExp527(cpi, (e, Some(l))))
  {
    var rows := LeftJoinLatest(exps, lk);
    MapMember(Filter(rows, Kept527), Exp527Row(cpi), z);
    if exists e, l :: (e in exps && l in lk && SameText(e.ein, l.ein) && Is(l.ctype, "F")
                       && CycleFromQuarter(e.quarterYr).Some? && z == MakeExp527(cpi, (e, Some(l)))) {
      var e, l :| e in exps && l in lk && SameText(e.ein, l.ein) && Is(l.ctype, "F")
                  && CycleFromQuarter(e.quarterYr).Some? && z == MakeExp527(cpi, (e, Some(l)));
      LeftJoinMember(exps, lk, e, l);
      assert (e, Some(l)) in Filter(rows, Kept527);
    }
    if z in Exp527Aligned(exps, lk, cpi) {
      var row :| row in Filter(rows, Kept527) && z == MakeExp527(cpi, row);
      LeftJoinMember(exps, lk, row.0, row.1.value);
    }
  }

  /** Every row of `exp527_aligned`: a federal-focus committee, the ViewPt of
      a lookup row of its own EIN, direction by that ViewPt, one of the four
      study cycles, the era of that cycle, and the amount in 2024 dollars. */
  lemma Exp527RowFacts(exps: seq<Expenditure527>, lk: seq<Latest>, cpi: CpiTable, z: Exp527)
    requires z in Exp527Aligned(exps, lk, cpi)
    ensures Is(z.ctype, "F")
    ensures exists l :: l in lk && SameText(z.ein, l.ein) && z.viewPt == l.viewPt
    ensures z.direction == ViewPtDirection(z.viewPt)
    ensures z.cycle.Some? && z.cycle.value in StudyCycles
    ensures z.era.Some? && z.era == EraFromCycle(z.cycle)
    ensures z.amountReal == Amount(z.amount) && z.amount2024 == Amount2024(z.amountReal, cpi, z.cycle)
  {
    Exp527Member(exps, lk, cpi, z);
    var e, l :| e in exps && l in lk && SameText(e.ein, l.ein) && Is(l.ctype, "F")
                && CycleFromQuarter(e.quarterYr).Some? && z == MakeExp527(cpi, (e, Some(l)));
    assert SameText(z.ein, l.ein);
  }

  /** With a lookup SQLite may build, each row's ViewPt and Ctype come from a
      federal-focus filing of its EIN that no other filing of that EIN
      postdates. */
  lemma Exp527FromLatestFiling(cmtes: seq<Cmte527>, exps: seq<Expenditure527>, lk: seq<Latest>, cpi: CpiTable, z: Exp527)
    requires ValidLatest(cmtes, lk) && z in Exp527Aligned(exps, lk, cpi)
    ensures exists c :: (c in cmtes && SameText(z.ein, c.ein) && z.viewPt == c.viewPt && z.ctype == c.ctype
                         && Is(c.ctype, "F") && LatestOfEin(cmtes, c))
  {
    Exp527Member(exps, lk, cpi, z);
    var e, l :| e in exps && l in lk && SameText(e.ein, l.ein) && Is(l.ctype, "F")
                && CycleFromQuarter(e.quarterYr).Some? && z == MakeExp527(cpi, (e, Some(l)));
    LatestIsLatest(cmtes, lk, l);
    var c :| c in cmtes && Project(c) == l && LatestOfEin(cmtes, c);
    assert SameText(z.ein, c.ein);
  }

  /** With one lookup row per EIN, the left join neither drops nor repeats an
      expenditure, so no expenditure is counted twice. */
  lemma {:induction false} LeftJoinOnce(exps: seq<Expenditure527>, lk: seq<Latest>)
    requires DistinctEins(lk)
    ensures |LeftJoinLatest(exps, lk)| == |exps|
    decreases |exps|
  {
    if exps != [] {
      LeftJoinOnce(exps[1..], lk);
      var e := exps[0];
      forall i, j | 0 <= i < j < |lk| && EinMatch(e)(lk[i]) ensures !EinMatch(e)(lk[j]) {
        assert lk[i].ein != lk[j].ein;
      }
      FilterAtMostOne(lk, EinMatch(e));
    }
  }

  lemma Exp527AtMostOnce(exps: seq<Expenditure527>, lk: seq<Latest>, cpi: CpiTable)
    requires DistinctEins(lk)
    ensures |Exp527Aligned(exps, lk, cpi)| <= |exps|
  {
    LeftJoinOnce(exps, lk);
  }
}
