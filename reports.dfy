/** The summary loops of the cleaning step: after building `indivs_to_pres`,
    `pacs_to_pres`, `exp527_aligned` and `partisan_spending_monthly` the
    builder logs one line per row of a GROUP BY query, and `validate` logs the
    era totals of the monthly table. Each line is an f-string whose fields
    carry format specs (`:.2f`, `:.3f`, `:<10`); Python raises `TypeError`
    when such a spec meets `None`, so a loop raises as soon as one of its rows
    holds a NULL in a column formatted with a spec. Only whether a loop raises
    is modelled, not the text it logs. */
module Reports {
  import opened Sql
  import opened Rel
  import opened Classify
  import opened Cpi
  import opened Candidates
  import opened Contributions
  import opened PacSpending
  import opened Filings527
  import opened Spending

  /** Some row's key has nothing but NULLs in the summed column. */
  predicate SomeAllNullKey<A(!new,==), K(==)>(xs: seq<A>, f: A -> Keyed<K>) {
    exists x :: x in xs && forall y :: y in xs && f(y).key == f(x).key ==> f(y).amount2024.None?
  }

  /** A summary over a GROUP BY raises exactly when some key's rows are all
      NULL in the summed column, which makes that group's SUM NULL. */
  lemma NullSumOfMap<A(!new), K>(xs: seq<A>, f: A -> Keyed<K>)
    ensures SomeNullSum2024(Map(xs, f)) <==> SomeAllNullKey(xs, f)
  {
    NullSumIff(Map(xs, f));
    if SomeNullSum2024(Map(xs, f)) {
      NullSumHasAllNullKey(xs, f);
    }
    if SomeAllNullKey(xs, f) {
      AllNullKeyHasNullSum(xs, f);
    }
  }

  lemma NullSumHasAllNullKey<A(!new), K>(xs: seq<A>, f: A -> Keyed<K>)
    requires exists r :: r in Map(xs, f) && AllNull2024(Map(xs, f), r.key)
    ensures SomeAllNullKey(xs, f)
  {
    var rows := Map(xs, f);
    var r :| r in rows && AllNull2024(rows, r.key);
    MapMember(xs, f, r);
    var x :| x in xs && r == f(x);
    forall y | y in xs && f(y).key == f(x).key ensures f(y).amount2024.None? {
      MapMember(xs, f, f(y));
    }
  }

  lemma AllNullKeyHasNullSum<A(!new), K>(xs: seq<A>, f: A -> Keyed<K>)
    requires SomeAllNullKey(xs, f)
    ensures exists r :: r in Map(xs, f) && AllNull2024(Map(xs, f), r.key)
  {
    var rows := Map(xs, f);
    var x :| x in xs && forall y :: y in xs && f(y).key == f(x).key ==> f(y).amount2024.None?;
    MapMember(xs, f, f(x));
    forall r | r in rows && r.key == f(x).key ensures r.amount2024.None? {
      MapMember(xs, f, r);
    }
    assert AllNull2024(rows, f(x).key);
  }

  // ---------------------------------------------------------------------------
  // The four builder summaries

  /** `GROUP BY Cycle` over `indivs_to_pres`. */
  function IndivByCycle(z: IndivToPres): Keyed<Field> {
    Keyed(z.cycle, z.amount, z.amount2024)
  }

  /** `${row[2]:.2f}` of `SUM(Amount_2024)/1e9` per cycle. */
  predicate IndivReportRaises(indivs: seq<IndivToPres>) {
    SomeNullSum2024(Map(indivs, IndivByCycle))
  }

  predicate HasDi(z: PacToPres) { z.di.Some? }

  /** `WHERE DI IS NOT NULL GROUP BY Cycle, DI` over `pacs_to_pres`. */
  function PacByCycleDi(z: PacToPres): Keyed<(Field, Field)> {
    Keyed((z.cycle, z.di), z.amount, z.amount2024)
  }

  /** `${row[3]:.3f}` of `SUM(Amount_2024)/1e9` per cycle and DI. */
  predicate PacReportRaises(pacs: seq<PacToPres>) {
    SomeNullSum2024(Map(Filter(pacs, HasDi), PacByCycleDi))
  }

  /** `GROUP BY Cycle, partisan_direction` over `exp527_aligned`. */
  function ExpByCycleDirection(z: Exp527): Keyed<(Field, Direction)> {
    Keyed((z.cycle, z.direction), z.amountReal, z.amount2024)
  }

  /** `${row[3]:.3f}` of `SUM(Amount_2024)/1e9` per cycle and direction. */
  predicate Exp527ReportRaises(exps: seq<Exp527>) {
    SomeNullSum2024(Map(exps, ExpByCycleDirection))
  }

  type MonthlyRow = Group<SpendKey<(Field, Field)>>

  /** `GROUP BY era, ...` has a NULL-era row exactly when the monthly table
      has a row with a NULL era. */
  predicate SomeNullEra(monthly: seq<MonthlyRow>) {
    exists g :: g in monthly && g.key.era.None?
  }

  /** `GROUP BY era, partisan_direction` over the monthly table. */
  function MonthlyByEra(g: MonthlyRow): Keyed<(Option<Era>, Direction)> {
    Keyed((g.key.era, g.key.direction), g.total, g.total2024)
  }

  /** `{row[0]:<10}` of the era and `${row[2]:.2f}` of
      `SUM(total_amount_2024)/1e9`. */
  predicate MonthlyReportRaises(monthly: seq<MonthlyRow>) {
    SomeNullEra(monthly) || SomeNullSum2024(Map(monthly, MonthlyByEra))
  }

  /** The era totals inside `validate` format the era with `:<10` but print
      the rounded sum without a spec, so only a NULL era raises. */
  predicate EraTotalsRaise(monthly: seq<MonthlyRow>) {
    SomeNullEra(monthly)
  }

  // ---------------------------------------------------------------------------
  // When the summaries raise

  /** The cycle summary of `indivs_to_pres` raises exactly when the rows
      of some cycle all have a NULL amount in 2024 dollars. */
  lemma IndivReportRaisesIff(indivs: seq<IndivToPres>)
    ensures IndivReportRaises(indivs) <==>
      exists z :: z in indivs && forall y :: y in indivs && y.cycle == z.cycle ==> y.amount2024.None?
  {
    NullSumOfMap(indivs, IndivByCycle);
  }

  /** Some (Cycle, DI) pair of the flagged rows of `pacs_to_pres` has
      nothing but NULL amounts in 2024 dollars. */
  predicate PacNullPair(pacs: seq<PacToPres>) {
    exists z :: z in pacs && z.di.Some? && forall y :: (y in pacs && y.di.Some? && y.cycle == z.cycle && y.di == z.di
                                                      ==> y.amount2024.None?)
  }

  /** The summary of the flagged rows of `pacs_to_pres` raises exactly when
      some (Cycle, DI) pair has nothing but NULL amounts in 2024 dollars. */
  lemma PacReportRaisesIff(pacs: seq<PacToPres>)
    ensures PacReportRaises(pacs) <==> PacNullPair(pacs)
  {
    NullSumOfMap(Filter(pacs, HasDi), PacByCycleDi);
    if PacReportRaises(pacs) {
      PacRaisesOnlyOnNullPair(pacs);
    }
    if PacNullPair(pacs) {
      PacRaisesOnNullPair(pacs);
    }
  }

  lemma PacRaisesOnlyOnNullPair(pacs: seq<PacToPres>)
    requires PacReportRaises(pacs)
    ensures PacNullPair(pacs)
  {
    var xs := Filter(pacs, HasDi);
    NullSumOfMap(xs, PacByCycleDi);
    var x :| x in xs && forall y :: y in xs && PacByCycleDi(y).key == PacByCycleDi(x).key ==> PacByCycleDi(y).amount2024.None?;
    forall y | y in pacs && y.di.Some? && y.cycle == x.cycle && y.di == x.di ensures y.amount2024.None? {
      assert y in xs && PacByCycleDi(y).key == PacByCycleDi(x).key;
    }
  }

  lemma PacRaisesOnNullPair(pacs: seq<PacToPres>)
    requires PacNullPair(pacs)
    ensures PacReportRaises(pacs)
  {
    var xs := Filter(pacs, HasDi);
    var z :| z in pacs && z.di.Some? && forall y :: (y in pacs && y.di.Some? && y.cycle == z.cycle && y.di == z.di
                                                    ==> y.amount2024.None?);
    assert z in xs;
    forall y | y in xs && PacByCycleDi(y).key == PacByCycleDi(z).key ensures PacByCycleDi(y).amount2024.None? {
      assert y in pacs && y.di.Some?;
    }
    NullSumOfMap(xs, PacByCycleDi);
  }

  /** The summary of `exp527_aligned` raises exactly when some (Cycle,
      direction) pair has nothing but NULL amounts in 2024 dollars. */
  lemma Exp527ReportRaisesIff(exps: seq<Exp527>)
    ensures Exp527ReportRaises(exps) <==>
      exists z :: z in exps && forall y :: (y in exps && y.cycle == z.cycle && y.direction == z.direction
                                            ==> y.amount2024.None?)
  {
    NullSumOfMap(exps, ExpByCycleDirection);
    if Exp527ReportRaises(exps) {
      var x :| x in exps && forall y :: (y in exps && ExpByCycleDirection(y).key == ExpByCycleDirection(x).key
                                         ==> ExpByCycleDirection(y).amount2024.None?);
      forall y | y in exps && y.cycle == x.cycle && y.direction == x.direction ensures y.amount2024.None? {
        assert ExpByCycleDirection(y).key == ExpByCycleDirection(x).key;
      }
    }
  }

  /** A cycle without a CPI factor has NULL amounts in 2024 dollars, so a
      single `indivs_to_pres` row of such a cycle makes the summary raise. */
  lemma IndivReportRaisesWithoutFactor(raw: seq<Contribution>, pres: seq<PresCandidate>, cpi: CpiTable, z: IndivToPres)
    requires z in IndivsToPres(raw, pres, cpi) && z.cycle.Some? && z.cycle.value !in cpi
    ensures IndivReportRaises(IndivsToPres(raw, pres, cpi))
  {
    var indivs := IndivsToPres(raw, pres, cpi);
    forall y | y in indivs && y.cycle == z.cycle ensures y.amount2024.None? {
      IndivsToPresRow(raw, pres, cpi, y);
    }
    IndivReportRaisesIff(indivs);
  }

  /** The same for a flagged row of `pacs_to_pres`. */
  lemma PacReportRaisesWithoutFactor(pacs: seq<PacToCandidate>, others: seq<PacToPac>, pres: seq<PresCandidate>,
                                     cpi: CpiTable, z: PacToPres)
    requires z in PacsToPres(pacs, others, pres, cpi) && z.di.Some? && z.cycle.Some? && z.cycle.value !in cpi
    ensures PacReportRaises(PacsToPres(pacs, others, pres, cpi))
  {
    var rows := PacsToPres(pacs, others, pres, cpi);
    forall y | y in rows && y.cycle == z.cycle ensures y.amount2024.None? {
      PacRowAmount(pacs, others, pres, cpi, y);
    }
    PacReportRaisesIff(rows);
  }

  lemma PacRowAmount(pacs: seq<PacToCandidate>, others: seq<PacToPac>, pres: seq<PresCandidate>, cpi: CpiTable, y: PacToPres)
    requires y in PacsToPres(pacs, others, pres, cpi)
    ensures y.amount2024 == Amount2024(y.amount, cpi, y.cycle)
  {
    if y in Primary(pacs, pres, cpi) {
      PrimaryRowFacts(pacs, pres, cpi, y);
    } else {
      SecondaryRowFacts(others, pres, cpi, y);
    }
  }

  /** 2016 is a study cycle of the 527 data but has no CPI factor in the
      importer's table, so one 527 expenditure of the 2016 cycle makes the
      summary of `exp527_aligned` raise. */
  lemma Exp527ReportRaisesIn2016(raw: seq<Expenditure527>, lk: seq<Latest>, refresh: map<string, real>, z: Exp527)
    requires z in Exp527Aligned(raw, lk, LoadedFactors(refresh)) && z.cycle == Some("2016")
    ensures Exp527ReportRaises(Exp527Aligned(raw, lk, LoadedFactors(refresh)))
  {
    var cpi := LoadedFactors(refresh);
    var exps := Exp527Aligned(raw, lk, cpi);
    forall y | y in exps && y.cycle == z.cycle ensures y.amount2024.None? {
      Exp527RowFacts(raw, lk, cpi, y);
      No2016Factor(refresh, y.amountReal);
    }
    Exp527ReportRaisesIff(exps);
  }

  /** A row of a cycle other than the four study cycles, 2020 among them, has
      a NULL era in `indivs_to_pres`. */
  lemma IndivEraOutsideStudy(raw: seq<Contribution>, cands: seq<Candidate>, cpi: CpiTable, z: IndivToPres)
    requires z in IndivsToPres(raw, PresCandidates(cands), cpi) && !InList(z.cycle, StudyCycles)
    ensures z.era.None?
  {
    IndivsToPresRow(raw, PresCandidates(cands), cpi, z);
  }

  /** A dated row of `indivs_to_pres` with a NULL era yields a monthly row
      with a NULL era, so the monthly summary raises. */
  lemma MonthlyReportRaisesOnNullEra(indivs: seq<IndivToPres>, pacs: seq<PacToPres>, exps: seq<Exp527>, z: IndivToPres)
    requires z in indivs && z.era.None? && HasText(z.date)
    ensures SomeNullEra(Monthly(indivs, pacs, exps))
    ensures MonthlyReportRaises(Monthly(indivs, pacs, exps))
  {
    var rows := ChannelRows(indivs, pacs, exps, Individual);
    var s := IndivSpend(z);
    MapMember(indivs, IndivSpend, s);
    var dated := Filter(rows, DatedBy(HasText));
    assert s in dated;
    var keyed := Map(dated, KeyedBy(Individual, MonthBucket));
    var r := KeyedBy(Individual, MonthBucket)(s);
    MapMember(dated, KeyedBy(Individual, MonthBucket), r);
    WithKeyMember(keyed, r.key, r);
    GroupByFind(keyed, r.key);
    FindKeepsKey(GroupBy(keyed), r.key);
    var g := Find(GroupBy(keyed), r.key).value;
    assert g in Branch(rows, Individual, HasText, MonthBucket);
    assert g in Monthly(indivs, pacs, exps);
  }
}
