/** `main` of the cleaning step: it refuses to run unless five raw tables have
    rows; otherwise it builds the six derived tables in dependency order and
    validates them. */
module CleanMain {
  import opened Sql
  import opened Rel
  import opened Cpi
  import opened Candidates
  import opened Contributions
  import opened PacSpending
  import opened Filings527
  import opened Spending
  import opened Validation
  import opened Reports
  import opened Classify

  /** The raw tables the cleaning step reads. Only the size of `committees`
      matters here. */
  datatype Raw = Raw(
    candidates: seq<Candidate>, committees: nat, indivs: seq<Contribution>,
    pacs: seq<PacToCandidate>, pacOther: seq<PacToPac>,
    cmtes527: seq<Cmte527>, exps527: seq<Expenditure527>, cpi: CpiTable)

  datatype Derived = Derived(
    pres: seq<PresCandidate>, indivs: seq<IndivToPres>, pacs: seq<PacToPres>, exps: seq<Exp527>,
    monthly: seq<Group<SpendKey<(Field, Field)>>>, weekly: seq<Group<SpendKey<Field>>>)

  /** The summary loops the builders end with, in the order they run. */
  datatype Report = IndivReport | PacReport | Exp527Report | MonthlyReport

  /** The script either exits naming an empty table, or raises in the
      summary loop of a builder, or finishes with its tables and the
      validation's end state. */
  datatype Run = Stopped(table: string) | Crashed(report: Report) | Cleaned(tables: Derived, summary: Summary)

  /** The tables checked before any work, in the order they are checked, with
      their `COUNT(*)`. */
  function RequiredCounts(raw: Raw): (r: seq<(string, nat)>)
    ensures |r| == 5
  {
    [("candidates", |raw.candidates|), ("committees", raw.committees),
     ("individual_contributions", |raw.indivs|), ("pacs_to_candidates", |raw.pacs|),
     ("cpi_factors", |raw.cpi|)]
  }

  /** The first table whose count is 0. */
  function FirstEmpty(counts: seq<(string, nat)>): Option<string> {
    if counts == [] then None
    else if counts[0].1 == 0 then Some(counts[0].0)
    else FirstEmpty(counts[1..])
  }

  /** The guard stops at an empty table, the first one, and only at one. */
  lemma {:induction false} FirstEmptyIsFirst(counts: seq<(string, nat)>)
    ensures FirstEmpty(counts).None? <==> forall i :: 0 <= i < |counts| ==> counts[i].1 > 0
    ensures FirstEmpty(counts).Some? ==>
      exists i :: (0 <= i < |counts| && counts[i] == (FirstEmpty(counts).value, 0)
                   && forall j :: 0 <= j < i ==> counts[j].1 > 0)
    decreases |counts|
  {
    if counts != [] && counts[0].1 != 0 {
      var tail := counts[1..];
      FirstEmptyIsFirst(tail);
      assert forall i :: 0 < i < |counts| ==> counts[i] == tail[i - 1];
      if FirstEmpty(tail).Some? {
        var i :| 0 <= i < |tail| && tail[i] == (FirstEmpty(tail).value, 0)
                 && forall j :: 0 <= j < i ==> tail[j].1 > 0;
        assert counts[i + 1] == tail[i];
      }
    }
  }

  /** The six builders in the order `main` calls them; the 527 lookup is
      the first-row choice `LatestLookup`. */
  function Build(raw: Raw): Derived {
    var pres := PresCandidates(raw.candidates);
    var indivs := IndivsToPres(raw.indivs, pres, raw.cpi);
    var pacs := PacsToPres(raw.pacs, raw.pacOther, pres, raw.cpi);
    var exps := Exp527Aligned(raw.exps527, LatestLookup(raw.cmtes527), raw.cpi);
    Derived(pres, indivs, pacs, exps, Monthly(indivs, pacs, exps), Weekly(indivs, pacs, exps))
  }

  function ValidationOf(d: Derived): Summary {
    ValidateTables(d.pres, d.indivs, d.pacs, d.exps, d.monthly, d.weekly)
  }

  function ReportIndex(rep: Report): nat {
    match rep
    case IndivReport => 0
    case PacReport => 1
    case Exp527Report => 2
    case MonthlyReport => 3
  }

  /** Whether a summary loop raises on the table its builder made. */
  predicate ReportRaises(d: Derived, rep: Report) {
    match rep
    case IndivReport => IndivReportRaises(d.indivs)
    case PacReport => PacReportRaises(d.pacs)
    case Exp527Report => Exp527ReportRaises(d.exps)
    case MonthlyReport => MonthlyReportRaises(d.monthly)
  }

  /** The first summary loop that raises, if any. */
  function FirstRaise(d: Derived): (r: Option<Report>)
    ensures r.None? <==> forall rep :: !ReportRaises(d, rep)
    ensures r.Some? ==> ReportRaises(d, r.value)
    ensures r.Some? ==> forall rep :: ReportIndex(rep) < ReportIndex(r.value) ==> !ReportRaises(d, rep)
  {
    if ReportRaises(d, IndivReport) then Some(IndivReport)
    else if ReportRaises(d, PacReport) then Some(PacReport)
    else if ReportRaises(d, Exp527Report) then Some(Exp527Report)
    else if ReportRaises(d, MonthlyReport) then Some(MonthlyReport)
    else None
  }

  /** `main`: a run stops, naming the first empty required table, exactly
      when one of them is empty; otherwise every table is built in order,
      and the run raises in the first summary loop that meets a NULL it
      formats, or else validates the tables. */
  function CleanMain(raw: Raw): (r: Run)
    ensures r.Stopped? <==> exists i :: 0 <= i < 5 && RequiredCounts(raw)[i].1 == 0
    ensures r.Stopped? ==> exists i :: (0 <= i < 5 && RequiredCounts(raw)[i] == (r.table, 0)
                                        && forall j :: 0 <= j < i ==> RequiredCounts(raw)[j].1 > 0)
    ensures r.Crashed? ==> ReportRaises(Build(raw), r.report)
    ensures r.Crashed? ==> forall rep :: ReportIndex(rep) < ReportIndex(r.report) ==> !ReportRaises(Build(raw), rep)
    ensures r.Cleaned? <==> !r.Stopped? && forall rep :: !ReportRaises(Build(raw), rep)
    ensures r.Cleaned? ==> |raw.candidates| > 0 && |raw.indivs| > 0 && |raw.pacs| > 0 && |raw.cpi| > 0
  {
    var counts := RequiredCounts(raw);
    FirstEmptyIsFirst(counts);
    match FirstEmpty(counts)
    case Some(t) => Stopped(t)
    case None =>
      assert counts[0].1 > 0 && counts[2].1 > 0 && counts[3].1 > 0 && counts[4].1 > 0;
      var d := Build(raw);
      match FirstRaise(d)
      case Some(rep) => Crashed(rep)
      case None => Cleaned(d, ValidationOf(d))
  }

  /** Past the guard and the summary loops, the raw contributions table has
      rows, yet validation still raises exactly when none of them reached
      `indivs_to_pres`, i.e. no kept contribution matched a presidential
      candidate of its cycle. */
  lemma CleanedRaisesIffNoMatches(raw: Raw)
    requires CleanMain(raw).Cleaned?
    ensures CleanMain(raw).summary.raised <==> CleanMain(raw).tables.indivs == []
  {
    var d := Build(raw);
    assert FirstEmpty(RequiredCounts(raw)).None? && FirstRaise(d).None?;
    assert CleanMain(raw) == Cleaned(d, ValidationOf(d));
    ValidatedRaisesIffNoIndivs(d);
  }

  /** Tables on which no summary loop raises validate with a raise exactly
      when `indivs_to_pres` is empty. */
  lemma ValidatedRaisesIffNoIndivs(d: Derived)
    requires forall rep :: !ReportRaises(d, rep)
    ensures ValidationOf(d).raised <==> d.indivs == []
  {
    assert !ReportRaises(d, MonthlyReport);
    ValidateRaises(d.pres, d.indivs, d.pacs, d.exps, d.monthly, d.weekly);
  }

  /** A dated contribution to a presidential candidate of a cycle outside
      the four study cycles, such as 2020, gets a NULL era, so a run that
      passes the guard raises in a summary loop and never validates. */
  lemma OutsideStudyCycleCrashes(raw: Raw, z: IndivToPres)
    requires !CleanMain(raw).Stopped?
    requires z in Build(raw).indivs && !InList(z.cycle, StudyCycles) && HasText(z.date)
    ensures CleanMain(raw).Crashed?
  {
    var d := Build(raw);
    IndivEraOutsideStudy(raw.indivs, raw.candidates, raw.cpi, z);
    MonthlyReportRaisesOnNullEra(d.indivs, d.pacs, d.exps, z);
    assert ReportRaises(d, MonthlyReport);
  }

  /** With the importer's CPI table, which has no 2016 factor, a 527
      expenditure of the 2016 cycle makes a run that passes the guard raise
      in a summary loop. */
  lemma Exp527Of2016Crashes(raw: Raw, refresh: map<string, real>, z: Exp527)
    requires raw.cpi == LoadedFactors(refresh) && !CleanMain(raw).Stopped?
    requires z in Build(raw).exps && z.cycle == Some("2016")
    ensures CleanMain(raw).Crashed?
  {
    var d := Build(raw);
    Exp527ReportRaisesIn2016(raw.exps527, LatestLookup(raw.cmtes527), refresh, z);
    assert ReportRaises(d, Exp527Report);
  }
}
