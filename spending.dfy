/** `create_partisan_monthly` and `create_partisan_weekly`: the spending of the
    four channels (individual contributions, direct PAC contributions, PAC
    independent expenditures, 527 expenditures) grouped by cycle, era, time
    bucket, channel and partisan direction, each output row holding
    `SUM(amount)`, `SUM(amount_2024)` and `COUNT(*)` of its group. The two
    tables differ only in the date filter and the time bucket, so both are
    instances of one `Aggregate`. */
module Spending {
  import opened Sql
  import opened Rel
  import opened Classify
  import opened Dates
  import opened Contributions
  import opened PacSpending
  import opened Filings527
  import opened Candidates
  import opened Cpi

  /** `spending_type`: 'individual', 'pac_direct', 'pac_independent', '527'. */
  datatype Channel = Individual | PacDirect | PacIndependent | Filing527

  /** The columns of a derived table that the aggregates read. */
  datatype Spend = Spend(cycle: Field, era: Option<Era>, date: Field,
                         amount: Option<real>, amount2024: Option<real>, direction: Direction)

  function IndivSpend(z: IndivToPres): Spend {
    Spend(z.cycle, z.era, z.date, z.amount, z.amount2024, z.direction)
  }

  function PacSpend(z: PacToPres): Spend {
    Spend(z.cycle, z.era, z.date, z.amount, z.amount2024, z.direction)
  }

  /** The 527 branch sums `Amount_real`, the parsed amount. */
  function ExpSpend(z: Exp527): Spend {
    Spend(z.cycle, z.era, z.date, z.amountReal, z.amount2024, z.direction)
  }

  /** The GROUP BY key of both tables; `B` is the time bucket. */
  datatype SpendKey<B> = SpendKey(cycle: Field, era: Option<Era>, bucket: B, channel: Channel, direction: Direction)

  /** `WHERE DI = <flag>` on `pacs_to_pres`. */
  function DiIs(flag: string): PacToPres -> bool {
    (z: PacToPres) => Is(z.di, flag)
  }

  /** The rows a channel's branch of the UNION ALL reads. */
  function ChannelRows(indivs: seq<IndivToPres>, pacs: seq<PacToPres>, exps: seq<Exp527>, ch: Channel): seq<Spend> {
    match ch
    case Individual => Map(indivs, IndivSpend)
    case PacDirect => Map(Filter(pacs, DiIs("D")), PacSpend)
    case PacIndependent => Map(Filter(pacs, DiIs("I")), PacSpend)
    case Filing527 => Map(exps, ExpSpend)
  }

  /** The date part of a branch's WHERE clause. */
  function DatedBy(kept: Field -> bool): Spend -> bool {
    (s: Spend) => kept(s.date)
  }

  function KeyedBy<B>(ch: Channel, bucket: Field -> B): Spend -> Keyed<SpendKey<B>> {
    (s: Spend) => Keyed(SpendKey(s.cycle, s.era, bucket(s.date), ch, s.direction), s.amount, s.amount2024)
  }

  /** One SELECT of the UNION ALL. */
  function Branch<B(==)>(rows: seq<Spend>, ch: Channel, kept: Field -> bool, bucket: Field -> B): seq<Group<SpendKey<B>>> {
    GroupBy(Map(Filter(rows, DatedBy(kept)), KeyedBy(ch, bucket)))
  }

  /** The four SELECTs in the order the statement lists them. */
  function Aggregate<B(==)>(indivs: seq<IndivToPres>, pacs: seq<PacToPres>, exps: seq<Exp527>,
                            kept: Field -> bool, bucket: Field -> B): seq<Group<SpendKey<B>>> {
    Branch(ChannelRows(indivs, pacs, exps, Individual), Individual, kept, bucket)
    + Branch(ChannelRows(indivs, pacs, exps, PacDirect), PacDirect, kept, bucket)
    + Branch(ChannelRows(indivs, pacs, exps, PacIndependent), PacIndependent, kept, bucket)
    + Branch(ChannelRows(indivs, pacs, exps, Filing527), Filing527, kept, bucket)
  }

  function InChannel<B>(ch: Channel): SpendKey<B> -> bool {
    (k: SpendKey<B>) => k.channel == ch
  }

  function SpendAmount(s: Spend): Option<real> { s.amount }

  function SpendAmount2024(s: Spend): Option<real> { s.amount2024 }

  // ---------------------------------------------------------------------------
  // The two tables

  /** `Year` and `Month`: `substr(Date, 7, 4)` and `substr(Date, 1, 2)`. */
  function MonthBucket(date: Field): (Field, Field) {
    (SubstrField(date, 7, 4), SubstrField(date, 1, 2))
  }

  /** `Date IS NOT NULL AND Date != '' AND length(Date) = 10`. */
  predicate WeekKept(date: Field) {
    HasText(date) && |date.value| == 10
  }

  /** `YearWeek`: `strftime('%Y-%W', ...)` of the rearranged date. */
  function WeekBucket(date: Field): Field {
    match date
    case None => None
    case Some(d) => WeekLabel(d)
  }

  /** `partisan_spending_monthly`: one row per group, no two with the same key. */
  function Monthly(indivs: seq<IndivToPres>, pacs: seq<PacToPres>, exps: seq<Exp527>): (r: seq<Group<SpendKey<(Field, Field)>>>)
    ensures DistinctKeys(r)
  {
    AggregateDistinct(indivs, pacs, exps, HasText, MonthBucket);
    Aggregate(indivs, pacs, exps, HasText, MonthBucket)
  }

  /** `partisan_spending_weekly`: one row per group, no two with the same key. */
  function Weekly(indivs: seq<IndivToPres>, pacs: seq<PacToPres>, exps: seq<Exp527>): (r: seq<Group<SpendKey<Field>>>)
    ensures DistinctKeys(r)
  {
    AggregateDistinct(indivs, pacs, exps, WeekKept, WeekBucket);
    Aggregate(indivs, pacs, exps, WeekKept, WeekBucket)
  }

  // ---------------------------------------------------------------------------
  // Keys

  lemma BranchChannel<B>(rows: seq<Spend>, ch: Channel, kept: Field -> bool, bucket: Field -> B, g: Group<SpendKey<B>>)
    requires g in Branch(rows, ch, kept, bucket)
    ensures g.key.channel == ch
  {
    var keyed := Map(Filter(rows, DatedBy(kept)), KeyedBy(ch, bucket));
    GroupByDistinct(keyed);
    assert g.key in KeySet(GroupBy(keyed));
    var r :| r in keyed && r.key == g.key;
    MapMember(Filter(rows, DatedBy(kept)), KeyedBy(ch, bucket), r);
  }

  lemma BranchesApart<B>(a: seq<Spend>, ca: Channel, b: seq<Spend>, cb: Channel, kept: Field -> bool, bucket: Field -> B)
    requires ca != cb
    ensures forall g, h :: g in Branch(a, ca, kept, bucket) && h in Branch(b, cb, kept, bucket) ==> g.key != h.key
  {
    forall g, h | g in Branch(a, ca, kept, bucket) && h in Branch(b, cb, kept, bucket) ensures g.key != h.key {
      BranchChannel(a, ca, kept, bucket, g);
      BranchChannel(b, cb, kept, bucket, h);
    }
  }

  /** No two output rows share (Cycle, era, bucket, spending_type,
      partisan_direction): the branches group separately, and their
      spending_type constants keep them apart. */
  lemma AggregateDistinct<B>(indivs: seq<IndivToPres>, pacs: seq<PacToPres>, exps: seq<Exp527>,
                             kept: Field -> bool, bucket: Field -> B)
    ensures DistinctKeys(Aggregate(indivs, pacs, exps, kept, bucket))
  {
    var i := ChannelRows(indivs, pacs, exps, Individual);
    var d := ChannelRows(indivs, pacs, exps, PacDirect);
    var n := ChannelRows(indivs, pacs, exps, PacIndependent);
    var e := ChannelRows(indivs, pacs, exps, Filing527);
    var bi, bd, bn, be := Branch(i, Individual, kept, bucket), Branch(d, PacDirect, kept, bucket),
                          Branch(n, PacIndependent, kept, bucket), Branch(e, Filing527, kept, bucket);
    GroupByDistinct(Map(Filter(i, DatedBy(kept)), KeyedBy(Individual, bucket)));
    GroupByDistinct(Map(Filter(d, DatedBy(kept)), KeyedBy(PacDirect, bucket)));
    GroupByDistinct(Map(Filter(n, DatedBy(kept)), KeyedBy(PacIndependent, bucket)));
    GroupByDistinct(Map(Filter(e, DatedBy(kept)), KeyedBy(Filing527, bucket)));
    BranchesApart(i, Individual, d, PacDirect, kept, bucket);
    DistinctAppend(bi, bd);
    forall g: Group<SpendKey<B>>, h: Group<SpendKey<B>> | g in bi + bd && h in bn ensures g.key != h.key {
      BranchChannel(n, PacIndependent, kept, bucket, h);
      if g in bi { BranchChannel(i, Individual, kept, bucket, g); } else { BranchChannel(d, PacDirect, kept, bucket, g); }
    }
    DistinctAppend(bi + bd, bn);
    forall g: Group<SpendKey<B>>, h: Group<SpendKey<B>> | g in bi + bd + bn && h in be ensures g.key != h.key {
      BranchChannel(e, Filing527, kept, bucket, h);
      if g in bi { BranchChannel(i, Individual, kept, bucket, g); }
      else if g in bd { BranchChannel(d, PacDirect, kept, bucket, g); }
      else { BranchChannel(n, PacIndependent, kept, bucket, g); }
    }
    DistinctAppend(bi + bd + bn, be);
  }

  /** Every output row is a non-empty group of one channel's dated rows: its
      key is that of such a row, and its SUMs and COUNT are those of exactly
      the rows with its key. */
  lemma AggregateRowSource<B>(indivs: seq<IndivToPres>, pacs: seq<PacToPres>, exps: seq<Exp527>,
                              kept: Field -> bool, bucket: Field -> B, g: Group<SpendKey<B>>)
    requires g in Aggregate(indivs, pacs, exps, kept, bucket)
    ensures var ch := g.key.channel;
      var keyed := Map(Filter(ChannelRows(indivs, pacs, exps, ch), DatedBy(kept)), KeyedBy(ch, bucket));
      Expected(keyed, g.key) == Some(g) && g.count > 0
    ensures exists s :: (s in ChannelRows(indivs, pacs, exps, g.key.channel) && kept(s.date)
                         && g.key == SpendKey(s.cycle, s.era, bucket(s.date), g.key.channel, s.direction))
  {
    var ch := g.key.channel;
    var rows := ChannelRows(indivs, pacs, exps, ch);
    match ch {
      case Individual =>
        if g !in Branch(rows, Individual, kept, bucket) {
          BranchAny(indivs, pacs, exps, kept, bucket, g);
        }
      case PacDirect =>
        if g !in Branch(rows, PacDirect, kept, bucket) {
          BranchAny(indivs, pacs, exps, kept, bucket, g);
        }
      case PacIndependent =>
        if g !in Branch(rows, PacIndependent, kept, bucket) {
          BranchAny(indivs, pacs, exps, kept, bucket, g);
        }
      case Filing527 =>
        if g !in Branch(rows, Filing527, kept, bucket) {
          BranchAny(indivs, pacs, exps, kept, bucket, g);
        }
    }
    assert g in Branch(rows, ch, kept, bucket);
    var keyed := Map(Filter(rows, DatedBy(kept)), KeyedBy(ch, bucket));
    GroupByMember(keyed, g);
    GroupByDistinct(keyed);
    assert g.key in KeySet(GroupBy(keyed));
    var r :| r in keyed && r.key == g.key;
    MapMember(Filter(rows, DatedBy(kept)), KeyedBy(ch, bucket), r);
  }

  /** An output row lies in the branch of its own channel. */
  lemma BranchAny<B>(indivs: seq<IndivToPres>, pacs: seq<PacToPres>, exps: seq<Exp527>,
                     kept: Field -> bool, bucket: Field -> B, g: Group<SpendKey<B>>)
    requires g in Aggregate(indivs, pacs, exps, kept, bucket)
    ensures g in Branch(ChannelRows(indivs, pacs, exps, g.key.channel), g.key.channel, kept, bucket)
  {
    var i := ChannelRows(indivs, pacs, exps, Individual);
    var d := ChannelRows(indivs, pacs, exps, PacDirect);
    var n := ChannelRows(indivs, pacs, exps, PacIndependent);
    var e := ChannelRows(indivs, pacs, exps, Filing527);
    if g in Branch(i, Individual, kept, bucket) {
      BranchChannel(i, Individual, kept, bucket, g);
    } else if g in Branch(d, PacDirect, kept, bucket) {
      BranchChannel(d, PacDirect, kept, bucket, g);
    } else if g in Branch(n, PacIndependent, kept, bucket) {
      BranchChannel(n, PacIndependent, kept, bucket, g);
    } else {
      BranchChannel(e, Filing527, kept, bucket, g);
    }
  }

  // ---------------------------------------------------------------------------
  // Losslessness

  lemma {:induction false} KeyedCount<B>(xs: seq<Spend>, ch: Channel, bucket: Field -> B, ch': Channel)
    ensures CountWhere(Map(xs, KeyedBy(ch, bucket)), InChannel(ch')) == if ch == ch' then |xs| else 0
    decreases |xs|
  {
    if xs != [] {
      var init, ks := xs[..|xs| - 1], Map(xs, KeyedBy(ch, bucket));
      KeyedCount(init, ch, bucket, ch');
      MapDropLast(xs, KeyedBy(ch, bucket));
      assert ks[|xs| - 1].key.channel == ch;
    }
  }

  lemma {:induction false} KeyedAmount<B>(xs: seq<Spend>, ch: Channel, bucket: Field -> B, ch': Channel)
    ensures AmountWhere(Map(xs, KeyedBy(ch, bucket)), InChannel(ch')) == if ch == ch' then Total(Map(xs, SpendAmount)) else 0.0
    decreases |xs|
  {
    if xs != [] {
      var init, ks, am := xs[..|xs| - 1], Map(xs, KeyedBy(ch, bucket)), Map(xs, SpendAmount);
      KeyedAmount(init, ch, bucket, ch');
      MapDropLast(xs, KeyedBy(ch, bucket));
      MapDropLast(xs, SpendAmount);
      assert ks[|xs| - 1].key.channel == ch && ks[|xs| - 1].amount == am[|xs| - 1];
    }
  }

  lemma {:induction false} KeyedAmount2024<B>(xs: seq<Spend>, ch: Channel, bucket: Field -> B, ch': Channel)
    ensures Amount2024Where(Map(xs, KeyedBy(ch, bucket)), InChannel(ch')) == if ch == ch' then Total(Map(xs, SpendAmount2024)) else 0.0
    decreases |xs|
  {
    if xs != [] {
      var init, ks, am := xs[..|xs| - 1], Map(xs, KeyedBy(ch, bucket)), Map(xs, SpendAmount2024);
      KeyedAmount2024(init, ch, bucket, ch');
      MapDropLast(xs, KeyedBy(ch, bucket));
      MapDropLast(xs, SpendAmount2024);
      assert ks[|xs| - 1].key.channel == ch && ks[|xs| - 1].amount2024 == am[|xs| - 1];
    }
  }

  lemma BranchSums<B>(rows: seq<Spend>, ch: Channel, kept: Field -> bool, bucket: Field -> B, ch': Channel)
    ensures SumCounts(Branch(rows, ch, kept, bucket), InChannel(ch')) == if ch == ch' then |Filter(rows, DatedBy(kept))| else 0
    ensures SumTotals(Branch(rows, ch, kept, bucket), InChannel(ch'))
            == if ch == ch' then Total(Map(Filter(rows, DatedBy(kept)), SpendAmount)) else 0.0
    ensures SumTotals2024(Branch(rows, ch, kept, bucket), InChannel(ch'))
            == if ch == ch' then Total(Map(Filter(rows, DatedBy(kept)), SpendAmount2024)) else 0.0
  {
    var xs := Filter(rows, DatedBy(kept));
    GroupByLossless(Map(xs, KeyedBy(ch, bucket)), InChannel(ch'));
    KeyedCount(xs, ch, bucket, ch');
    KeyedAmount(xs, ch, bucket, ch');
    KeyedAmount2024(xs, ch, bucket, ch');
  }

  /** Aggregation loses nothing: over the rows of one spending_type, the
      n_transactions, total_amount and total_amount_2024 columns add up to the
      number of that channel's dated rows and to their amounts (a NULL amount
      adding nothing). */
  lemma AggregateLossless<B>(indivs: seq<IndivToPres>, pacs: seq<PacToPres>, exps: seq<Exp527>,
                             kept: Field -> bool, bucket: Field -> B, ch: Channel)
    ensures var dated := Filter(ChannelRows(indivs, pacs, exps, ch), DatedBy(kept));
      && SumCounts(Aggregate(indivs, pacs, exps, kept, bucket), InChannel(ch)) == |dated|
      && SumTotals(Aggregate(indivs, pacs, exps, kept, bucket), InChannel(ch)) == Total(Map(dated, SpendAmount))
      && SumTotals2024(Aggregate(indivs, pacs, exps, kept, bucket), InChannel(ch)) == Total(Map(dated, SpendAmount2024))
  {
    var i := ChannelRows(indivs, pacs, exps, Individual);
    var d := ChannelRows(indivs, pacs, exps, PacDirect);
    var n := ChannelRows(indivs, pacs, exps, PacIndependent);
    var e := ChannelRows(indivs, pacs, exps, Filing527);
    var bi, bd, bn, be := Branch(i, Individual, kept, bucket), Branch(d, PacDirect, kept, bucket),
                          Branch(n, PacIndependent, kept, bucket), Branch(e, Filing527, kept, bucket);
    var p := InChannel(ch);
    BranchSums(i, Individual, kept, bucket, ch);
    BranchSums(d, PacDirect, kept, bucket, ch);
    BranchSums(n, PacIndependent, kept, bucket, ch);
    BranchSums(e, Filing527, kept, bucket, ch);
    SumsAppend(bi, bd, p);
    SumsAppend(bi + bd, bn, p);
    SumsAppend(bi + bd + bn, be, p);
  }

  /** `partisan_spending_monthly` counts and sums every row of a channel whose
      Date is present and non-empty. */
  lemma MonthlyLossless(indivs: seq<IndivToPres>, pacs: seq<PacToPres>, exps: seq<Exp527>, ch: Channel)
    ensures var dated := Filter(ChannelRows(indivs, pacs, exps, ch), DatedBy(HasText));
      && SumCounts(Monthly(indivs, pacs, exps), InChannel(ch)) == |dated|
      && SumTotals(Monthly(indivs, pacs, exps), InChannel(ch)) == Total(Map(dated, SpendAmount))
      && SumTotals2024(Monthly(indivs, pacs, exps), InChannel(ch)) == Total(Map(dated, SpendAmount2024))
  {
    AggregateLossless(indivs, pacs, exps, HasText, MonthBucket, ch);
  }

  /** `partisan_spending_weekly` counts and sums every row of a channel whose
      Date is present and ten characters long, NULL YearWeek included. */
  lemma WeeklyLossless(indivs: seq<IndivToPres>, pacs: seq<PacToPres>, exps: seq<Exp527>, ch: Channel)
    ensures var dated := Filter(ChannelRows(indivs, pacs, exps, ch), DatedBy(WeekKept));
      && SumCounts(Weekly(indivs, pacs, exps), InChannel(ch)) == |dated|
      && SumTotals(Weekly(indivs, pacs, exps), InChannel(ch)) == Total(Map(dated, SpendAmount))
      && SumTotals2024(Weekly(indivs, pacs, exps), InChannel(ch)) == Total(Map(dated, SpendAmount2024))
  {
    AggregateLossless(indivs, pacs, exps, WeekKept, WeekBucket, ch);
  }

  /** The weekly table's date filter is the monthly one plus a length check,
      so per channel it never counts more transactions. */
  lemma WeeklyWithinMonthly(indivs: seq<IndivToPres>, pacs: seq<PacToPres>, exps: seq<Exp527>, ch: Channel)
    ensures SumCounts(Weekly(indivs, pacs, exps), InChannel(ch)) <= SumCounts(Monthly(indivs, pacs, exps), InChannel(ch))
  {
    var rows := ChannelRows(indivs, pacs, exps, ch);
    AggregateCount(indivs, pacs, exps, WeekKept, WeekBucket, ch);
    AggregateCount(indivs, pacs, exps, HasText, MonthBucket, ch);
    WeekDatedIsDated(rows);
    FilterMonotone(rows, DatedBy(WeekKept), DatedBy(HasText));
  }

  lemma AggregateCount<B>(indivs: seq<IndivToPres>, pacs: seq<PacToPres>, exps: seq<Exp527>,
                          kept: Field -> bool, bucket: Field -> B, ch: Channel)
    ensures SumCounts(Aggregate(indivs, pacs, exps, kept, bucket), InChannel(ch))
      == |Filter(ChannelRows(indivs, pacs, exps, ch), DatedBy(kept))|
  {
    AggregateLossless(indivs, pacs, exps, kept, bucket, ch);
  }

  lemma WeekDatedIsDated(rows: seq<Spend>)
    ensures forall s :: s in rows && DatedBy(WeekKept)(s) ==> DatedBy(HasText)(s)
  {
    forall s | s in rows && DatedBy(WeekKept)(s) ensures DatedBy(HasText)(s) {
      assert WeekKept(s.date);
    }
  }

  // ---------------------------------------------------------------------------
  // Rows without a DI flag

  /** PAC rows whose DI is NULL pass neither `DI = 'D'` nor `DI = 'I'`, so
      adding them to `pacs_to_pres` changes neither table. */
  lemma AggregateIgnoresUnflagged<B>(indivs: seq<IndivToPres>, pacs: seq<PacToPres>, extra: seq<PacToPres>,
                                     exps: seq<Exp527>, kept: Field -> bool, bucket: Field -> B)
    requires forall z :: z in extra ==> z.di.None?
    ensures Aggregate(indivs, pacs + extra, exps, kept, bucket) == Aggregate(indivs, pacs, exps, kept, bucket)
  {
    FilterAppend(pacs, extra, DiIs("D"));
    FilterAppend(pacs, extra, DiIs("I"));
    FilterNone(extra, DiIs("D"));
    FilterNone(extra, DiIs("I"));
    assert Filter(pacs, DiIs("D")) + [] == Filter(pacs, DiIs("D"));
    assert Filter(pacs, DiIs("I")) + [] == Filter(pacs, DiIs("I"));
    assert ChannelRows(indivs, pacs + extra, exps, PacDirect) == ChannelRows(indivs, pacs, exps, PacDirect);
    assert ChannelRows(indivs, pacs + extra, exps, PacIndependent) == ChannelRows(indivs, pacs, exps, PacIndependent);
  }

  /** The pac_to_pac rows of `pacs_to_pres` carry a NULL DI, so they never
      reach the spending tables: both tables are what the
      `pacs_to_candidates` rows alone give. */
  lemma PacToPacNotAggregated(indivs: seq<IndivToPres>, pacs: seq<PacToCandidate>, others: seq<PacToPac>,
                              pres: seq<PresCandidate>, cpi: CpiTable, exps: seq<Exp527>)
    ensures Monthly(indivs, PacsToPres(pacs, others, pres, cpi), exps) == Monthly(indivs, Primary(pacs, pres, cpi), exps)
    ensures Weekly(indivs, PacsToPres(pacs, others, pres, cpi), exps) == Weekly(indivs, Primary(pacs, pres, cpi), exps)
  {
    var sec := Secondary(others, pres, cpi);
    forall z | z in sec ensures z.di.None? {
      SecondaryRowFacts(others, pres, cpi, z);
    }
    AggregateIgnoresUnflagged(indivs, Primary(pacs, pres, cpi), sec, exps, HasText, MonthBucket);
    AggregateIgnoresUnflagged(indivs, Primary(pacs, pres, cpi), sec, exps, WeekKept, WeekBucket);
  }
}
