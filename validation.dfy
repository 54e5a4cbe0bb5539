/** `validate`: nine checks over the derived tables. Each check runs one query
    and compares its single value with an expected value; a check passes or
    fails and bumps one of two counters, or raises (Python refuses to order
    `None`), which ends the validation and the script. */
module Validation {
  import opened Sql
  import opened Rel
  import opened Classify
  import opened Candidates
  import opened Contributions
  import opened PacSpending
  import opened Filings527
  import opened Spending
  import opened Cpi
  import opened Reports

  datatype Outcome = Pass | Fail | Raises

  /** One call of `check`: the query's value (NULL is `None`), the expected
      value and the comparison name. */
  datatype Check = Check(result: Option<real>, expected: real, compare: string)

  /** The comparison of `check`: "==" is Python equality, under which NULL
      equals nothing; ">=" and "<=" raise on NULL; any other name ignores the
      expected value and asks `result > 0`, which also raises on NULL. */
  function CheckRule(result: Option<real>, expected: real, compare: string): (o: Outcome)
    ensures compare == "==" ==> o != Raises && (o == Pass <==> result == Some(expected))
    ensures compare == ">=" ==> (o == Raises <==> result.None?) && (o == Pass <==> result.Some? && result.value >= expected)
    ensures compare == "<=" ==> (o == Raises <==> result.None?) && (o == Pass <==> result.Some? && result.value <= expected)
    ensures compare != "==" && compare != ">=" && compare != "<=" ==>
      (o == Raises <==> result.None?) && (o == Pass <==> result.Some? && result.value > 0.0)
  {
    if compare == "==" then (if result == Some(expected) then Pass else Fail)
    else if result.None? then Raises
    else if compare == ">=" then (if result.value >= expected then Pass else Fail)
    else if compare == "<=" then (if result.value <= expected then Pass else Fail)
    else if result.value > 0.0 then Pass else Fail
  }

  function Judge(c: Check): Outcome {
    CheckRule(c.result, c.expected, c.compare)
  }

  /** The two `nonlocal` counters of `validate`. */
  class Tally {
    var passed: nat
    var failed: nat

    constructor ()
      ensures passed == 0 && failed == 0
    {
      passed, failed := 0, 0;
    }

    /** One call of `check`: a pass or a failure is counted, a raise leaves
        both counters as they were. */
    method Run(c: Check) returns (o: Outcome)
      modifies this
      ensures o == Judge(c)
      ensures passed == old(passed) + (if o == Pass then 1 else 0)
      ensures failed == old(failed) + (if o == Fail then 1 else 0)
    {
      o := CheckRule(c.result, c.expected, c.compare);
      if o == Pass {
        passed := passed + 1;
      } else if o == Fail {
        failed := failed + 1;
      }
    }

    /** The `check` calls `cs[from..to]` in order, stopping after the first
        that raises. */
    method RunUntil(cs: seq<Check>, from: nat, to: nat) returns (next: nat, raised: bool)
      requires from <= to <= |cs|
      requires Summarize(cs[..from]) == Summary(passed, failed, false)
      modifies this
      ensures from <= next <= to && (!raised ==> next == to)
      ensures Summarize(cs[..next]) == Summary(passed, failed, raised)
    {
      next, raised := from, false;
      while next < to && !raised
        invariant from <= next <= to
        invariant Summarize(cs[..next]) == Summary(passed, failed, raised)
      {
        assert cs[..next + 1][..next] == cs[..next];
        var o := Run(cs[next]);
        raised := o == Raises;
        next := next + 1;
      }
    }
  }

  /** Where a run of checks ends: the two counters, and whether a check raised. */
  datatype Summary = Summary(passed: nat, failed: nat, raised: bool)

  /** The checks in order, stopping at the first that raises. */
  function Summarize(cs: seq<Check>): Summary {
    if cs == [] then Summary(0, 0, false)
    else
      var s := Summarize(cs[..|cs| - 1]);
      if s.raised then s
      else match Judge(cs[|cs| - 1])
        case Pass => Summary(s.passed + 1, s.failed, false)
        case Fail => Summary(s.passed, s.failed + 1, false)
        case Raises => Summary(s.passed, s.failed, true)
  }

  function Passes(c: Check): bool { Judge(c) == Pass }

  function RaisesOn(c: Check): bool { Judge(c) == Raises }

  /** Without a raise, every check is counted once, and `passed` counts the
      checks that pass; a raise happens exactly when some check raises, and
      then the checks before the first raising one are the ones counted. */
  lemma {:induction false} SummarizeCounts(cs: seq<Check>)
    ensures Summarize(cs).raised <==> CountIf(cs, RaisesOn) > 0
    ensures !Summarize(cs).raised ==>
      Summarize(cs).passed + Summarize(cs).failed == |cs| && Summarize(cs).passed == CountIf(cs, Passes)
    decreases |cs|
  {
    if cs != [] {
      var init, last := cs[..|cs| - 1], cs[|cs| - 1];
      SummarizeCounts(init);
      assert cs == init + [last];
      FilterAppend(init, [last], RaisesOn);
      FilterAppend(init, [last], Passes);
    }
  }

  lemma {:induction false} SummarizeStops(cs: seq<Check>, k: nat)
    requires k <= |cs| && Summarize(cs[..k]).raised
    ensures Summarize(cs) == Summarize(cs[..k])
    decreases |cs| - k
  {
    if k < |cs| {
      assert cs[..k + 1][..k] == cs[..k];
      SummarizeStops(cs, k + 1);
    } else {
      assert cs[..k] == cs;
    }
  }

  /** The checks, with a log loop before check `at` that raises when
      `logRaises`: the run ends at the first check that raises, or at the
      loop if no check before it raised. */
  function SummarizeLogged(cs: seq<Check>, at: nat, logRaises: bool): (s: Summary)
    requires at <= |cs|
    ensures s.raised <==> logRaises || Summarize(cs).raised
    ensures !logRaises ==> s == Summarize(cs)
    ensures logRaises && !Summarize(cs[..at]).raised ==> s.passed + s.failed == at
  {
    var head := Summarize(cs[..at]);
    if head.raised then
      SummarizeStops(cs, at);
      head
    else if logRaises then
      SummarizeCounts(cs[..at]);
      Summary(head.passed, head.failed, true)
    else Summarize(cs)
  }

  /** The body of `validate` after its banner: the checks one by one, with
      the era-totals log loop before check `at`; a raise ends the run. */
  method Validate(cs: seq<Check>, at: nat, logRaises: bool) returns (passed: nat, failed: nat, raised: bool)
    requires at <= |cs|
    ensures SummarizeLogged(cs, at, logRaises) == Summary(passed, failed, raised)
  {
    var t := new Tally();
    assert cs[..0] == [];
    var i;
    i, raised := t.RunUntil(cs, 0, at);
    if raised {
      assert cs[..at][..i] == cs[..i];
      SummarizeStops(cs[..at], i);
    } else if logRaises {
      raised := true;
    } else {
      i, raised := t.RunUntil(cs, at, |cs|);
      if raised {
        SummarizeStops(cs, i);
      } else {
        assert cs[..i] == cs;
      }
    }
    passed, failed := t.passed, t.failed;
  }

  // ---------------------------------------------------------------------------
  // The nine checks

  /** `era NOT IN ('pre_CU','post_CU')`: NULL for a NULL era, so such a row
      is not counted; a known era is never outside the list. */
  predicate EraUnknown(e: Option<Era>) {
    e.Some? && e.value != PreCU && e.value != PostCU
  }

  predicate IndivEraUnknown(z: IndivToPres) { EraUnknown(z.era) }

  predicate PacEraUnknown(z: PacToPres) { EraUnknown(z.era) }

  predicate Aligned(z: IndivToPres) { z.direction == ProR || z.direction == ProD }

  /** `COUNT(DISTINCT era)`: NULLs are not counted. */
  function Eras(pres: seq<PresCandidate>): set<Era> {
    set p | p in pres && p.era.Some? :: p.era.value
  }

  /** `COUNT(DISTINCT Cycle)` over `exp527_aligned`. */
  function Cycles527(exps: seq<Exp527>): set<string> {
    set z | z in exps && z.cycle.Some? :: z.cycle.value
  }

  /** `CAST(SUM(CASE ... THEN 1 ELSE 0 END) AS REAL) / COUNT(*)`: over an
      empty table the SUM is NULL and so is the quotient. */
  function Coverage(indivs: seq<IndivToPres>): (r: Option<real>)
    ensures r.None? <==> indivs == []
    ensures r.Some? ==> 0.0 <= r.value <= 1.0
  {
    if indivs == [] then None
    else
      RatioAtMostOne(CountIf(indivs, Aligned), |indivs|);
      Some(CountIf(indivs, Aligned) as real / |indivs| as real)
  }

  lemma RatioAtMostOne(a: nat, b: nat)
    requires a <= b && b > 0
    ensures 0.0 <= a as real / b as real <= 1.0
  {
  }

  function Count(n: nat): Option<real> { Some(n as real) }

  /** The nine `check` calls of `validate`, in order. */
  function Checks(pres: seq<PresCandidate>, indivs: seq<IndivToPres>, pacs: seq<PacToPres>, exps: seq<Exp527>,
                  monthly: seq<Group<SpendKey<(Field, Field)>>>, weekly: seq<Group<SpendKey<Field>>>): (cs: seq<Check>)
    ensures |cs| == 9
  {
    [ Check(Count(|pres|), 5.0, ">="),
      Check(Count(|Eras(pres)|), 2.0, "=="),
      Check(Count(CountIf(indivs, RecipLooksLikePac)), 0.0, "=="),
      Check(Count(CountIf(indivs, IndivEraUnknown)), 0.0, "=="),
      Check(Count(CountIf(pacs, PacEraUnknown)), 0.0, "=="),
      Check(Coverage(indivs), 0.90, ">="),
      Check(Count(|Cycles527(exps)|), 4.0, "=="),
      Check(Count(|monthly|), 1.0, ">="),
      Check(Count(|weekly|), 1.0, ">=") ]
  }

  /** The two era checks cannot fail: an era column holds one of the two
      known eras or NULL, and NULL is not NOT IN the list. Rows of cycle 2020,
      whose era is NULL, go through unnoticed. */
  lemma KnownEraChecksPass(pres: seq<PresCandidate>, indivs: seq<IndivToPres>, pacs: seq<PacToPres>, exps: seq<Exp527>,
                           monthly: seq<Group<SpendKey<(Field, Field)>>>, weekly: seq<Group<SpendKey<Field>>>)
    ensures var cs := Checks(pres, indivs, pacs, exps, monthly, weekly);
      Judge(cs[3]) == Pass && Judge(cs[4]) == Pass
  {
    FilterNone(indivs, IndivEraUnknown);
    FilterNone(pacs, PacEraUnknown);
  }

  /** Only the coverage check can see a NULL, so the nine checks raise
      exactly when `indivs_to_pres` is empty, after counting the first five;
      the first six checks then already raise. */
  lemma ChecksRaiseIffNoIndivs(pres: seq<PresCandidate>, indivs: seq<IndivToPres>, pacs: seq<PacToPres>, exps: seq<Exp527>,
                               monthly: seq<Group<SpendKey<(Field, Field)>>>, weekly: seq<Group<SpendKey<Field>>>)
    ensures var cs := Checks(pres, indivs, pacs, exps, monthly, weekly);
      var s := Summarize(cs);
      (s.raised <==> indivs == []) && (s.raised ==> s.passed + s.failed == 5)
      && (indivs == [] ==> Summarize(cs[..6]).raised)
  {
    var cs := Checks(pres, indivs, pacs, exps, monthly, weekly);
    assert forall k :: 0 <= k < 9 && k != 5 ==> Judge(cs[k]) != Raises;
    if indivs == [] {
      assert Summarize(cs[..6]).raised by {
        SummarizeCounts(cs[..5]);
        assert cs[..6][..5] == cs[..5];
      }
      SummarizeStops(cs, 6);
      assert cs[..6][..5] == cs[..5];
      SummarizeCounts(cs[..5]);
      forall c | c in cs[..5] ensures !RaisesOn(c) {}
      FilterNone(cs[..5], RaisesOn);
    } else {
      forall c | c in cs ensures !RaisesOn(c) {}
      FilterNone(cs, RaisesOn);
      SummarizeCounts(cs);
    }
  }

  /** `validate` over the derived tables: the nine checks, with the
      era-totals log loop between the sixth and the seventh. */
  function ValidateTables(pres: seq<PresCandidate>, indivs: seq<IndivToPres>, pacs: seq<PacToPres>, exps: seq<Exp527>,
                          monthly: seq<Group<SpendKey<(Field, Field)>>>, weekly: seq<Group<SpendKey<Field>>>): Summary {
    SummarizeLogged(Checks(pres, indivs, pacs, exps, monthly, weekly), 6, EraTotalsRaise(monthly))
  }

  /** `validate` raises exactly when `indivs_to_pres` is empty (at the
      coverage check, after five counted checks) or the monthly table has a
      NULL era (at the era totals, after six). */
  lemma ValidateRaises(pres: seq<PresCandidate>, indivs: seq<IndivToPres>, pacs: seq<PacToPres>, exps: seq<Exp527>,
                       monthly: seq<Group<SpendKey<(Field, Field)>>>, weekly: seq<Group<SpendKey<Field>>>)
    ensures var s := ValidateTables(pres, indivs, pacs, exps, monthly, weekly);
      && (s.raised <==> indivs == [] || EraTotalsRaise(monthly))
      && (s.raised && indivs == [] ==> s.passed + s.failed == 5)
      && (s.raised && indivs != [] ==> s.passed + s.failed == 6)
  {
    var cs := Checks(pres, indivs, pacs, exps, monthly, weekly);
    ChecksRaiseIffNoIndivs(pres, indivs, pacs, exps, monthly, weekly);
    if indivs == [] {
      SummarizeStops(cs, 6);
    } else if Summarize(cs[..6]).raised {
      SummarizeStops(cs, 6);
      assert false;
    }
  }

  /** The anti-double-counting check passes whenever no presidential CID has
      the shape of a committee ID. */
  lemma NoPacRecipientCheckPasses(cands: seq<Candidate>, raw: seq<Contribution>, cpi: CpiTable,
                                  pacs: seq<PacToPres>, exps: seq<Exp527>,
                                  monthly: seq<Group<SpendKey<(Field, Field)>>>, weekly: seq<Group<SpendKey<Field>>>)
    requires forall c :: c in PresCandidates(cands) ==> NotLikeOrNull(c.cid, "C")
    ensures var pres := PresCandidates(cands);
      Judge(Checks(pres, IndivsToPres(raw, pres, cpi), pacs, exps, monthly, weekly)[2]) == Pass
  {
    var pres := PresCandidates(cands);
    var indivs := IndivsToPres(raw, pres, cpi);
    NoPacRecipients(raw, pres, cpi);
    var c := Checks(pres, indivs, pacs, exps, monthly, weekly)[2];
    assert c == Check(Count(CountIf(indivs, RecipLooksLikePac)), 0.0, "==");
  }

  lemma {:induction false} SubsetCardinality<T>(a: set<T>, b: set<T>)
    requires a <= b
    ensures |a| <= |b|
    decreases |a|
  {
    if a != {} {
      var x :| x in a;
      SubsetCardinality(a - {x}, b - {x});
    }
  }

  /** A set of study cycles has four members exactly when it has them all. */
  lemma AllFourCycles(cy: set<string>)
    requires cy <= set c | c in StudyCycles
    ensures |cy| == 4 <==> forall c :: c in StudyCycles ==> c in cy
  {
    var study := set c | c in StudyCycles;
    assert study == {"2004", "2008", "2012", "2016"};
    if |cy| == 4 && cy != study {
      var x :| x in study && x !in cy;
      SubsetCardinality(cy, study - {x});
    }
    if forall c :: c in StudyCycles ==> c in cy {
      assert cy == study;
    }
  }

  /** `exp527_aligned` can only hold the four study cycles, so its cycle check
      passes exactly when each of them has a row. */
  lemma Exp527CycleCheck(raw: seq<Expenditure527>, lk: seq<Latest>, cpi: CpiTable)
    ensures Cycles527(Exp527Aligned(raw, lk, cpi)) <= set c | c in StudyCycles
    ensures |Cycles527(Exp527Aligned(raw, lk, cpi))| == 4 <==> forall c :: c in StudyCycles ==> c in Cycles527(Exp527Aligned(raw, lk, cpi))
  {
    var exps := Exp527Aligned(raw, lk, cpi);
    forall c | c in Cycles527(exps) ensures c in StudyCycles {
      var z :| z in exps && z.cycle == Some(c);
      Exp527RowFacts(raw, lk, cpi, z);
    }
    AllFourCycles(Cycles527(exps));
  }

  /** The era check passes exactly when `pres_candidates` has a row of each
      era, i.e. a presidential row of 2004 or 2008 and one of 2012 or 2016. */
  lemma DistinctErasCheck(pres: seq<PresCandidate>)
    ensures |Eras(pres)| == 2 <==> PreCU in Eras(pres) && PostCU in Eras(pres)
  {
    var es := Eras(pres);
    forall e | e in es ensures e in {PreCU, PostCU} {
      if e.PreCU? { assert e == PreCU; } else { assert e == PostCU; }
    }
    if PreCU in es && PostCU in es {
      assert es == {PreCU, PostCU};
    } else if PreCU in es {
      assert es == {PreCU};
    } else if PostCU in es {
      assert es == {PostCU};
    } else {
      assert es == {};
    }
  }
}
