/** The CPI-U factors that turn nominal dollars into 2024 dollars, keyed by
    election cycle, and the `LEFT JOIN cpi_factors` that looks them up. */
module Cpi {
  import opened Sql

  /** The `cpi_factors` table: Cycle is its primary key, so a cycle has at
      most one factor. Factors are exact reals; floating point is not modelled. */
  type CpiTable = map<string, real>

  /** The importer's hard-coded factors. There is no entry for 2016. */
  const HardcodedFactors: CpiTable := map["2004" := 1.6653, "2008" := 1.4611, "2012" := 1.3607, "2020" := 1.2124]

  /** The table the importer leaves behind: the hard-coded factors, each of
      them possibly replaced by a factor read from the inflation file for the
      same year. `refresh` stands for what that file yields; years the
      hard-coded table does not know are ignored. */
  function LoadedFactors(refresh: map<string, real>): (t: CpiTable)
    ensures t.Keys == HardcodedFactors.Keys
  {
    map c | c in HardcodedFactors :: if c in refresh then refresh[c] else HardcodedFactors[c]
  }

  /** Whatever the inflation file says, the table has factors for exactly
      the importer's four cycles, and a year the file does not mention keeps
      its hard-coded factor. */
  lemma LoadedFactorsKeys(refresh: map<string, real>, c: string)
    ensures c in LoadedFactors(refresh) <==> c in ["2004", "2008", "2012", "2020"]
    ensures c in HardcodedFactors && c !in refresh ==> LoadedFactors(refresh)[c] == HardcodedFactors[c]
  {
    assert HardcodedFactors.Keys == {"2004", "2008", "2012", "2020"};
  }

  /** `LEFT JOIN cpi_factors cf ON x.Cycle = cf.Cycle`, read as `cf.factor`:
      NULL when the cycle is NULL or has no factor. */
  function Factor(cpi: CpiTable, cycle: Field): (f: Option<real>)
    ensures f.Some? <==> cycle.Some? && cycle.value in cpi
    ensures f.Some? ==> f.value == cpi[cycle.value]
  {
    if cycle.Some? && cycle.value in cpi then Some(cpi[cycle.value]) else None
  }

  /** `CAST(NULLIF(Amount, '') AS REAL) * cf.factor`. */
  function Amount2024(amount: Option<real>, cpi: CpiTable, cycle: Field): (r: Option<real>)
    ensures r.Some? <==> amount.Some? && cycle.Some? && cycle.value in cpi
  {
    Times(amount, Factor(cpi, cycle))
  }

  /** The 2016 cycle the cleaning step knows has no factor, so every 2016 amount
      in 2024 dollars is NULL. */
  lemma No2016Factor(refresh: map<string, real>, amount: Option<real>)
    ensures Amount2024(amount, LoadedFactors(refresh), Some("2016")) == None
  {
    LoadedFactorsKeys(refresh, "2016");
  }
}
