/** `create_pacs_to_pres`: PAC contributions and independent expenditures for
    or against presidential candidates, from `pacs_to_candidates` and, as a
    second source, from `pac_to_pac`. */
module PacSpending {
  import opened Sql
  import opened Rel
  import opened Classify
  import opened Cpi
  import opened Candidates

  /** A row of the raw `pacs_to_candidates` table. */
  datatype PacToCandidate = PacToCandidate(
    cycle: Field, fecTransId: Field, commId: Field, candId: Field, amount: Field,
    date: Field, primCode: Field, typ: Field, di: Field, recipCode: Field)

  /** A row of the raw `pac_to_pac` table. */
  datatype PacToPac = PacToPac(
    cycle: Field, fecTransId: Field, commId: Field, commName: Field,
    payee: Field, payeeCity: Field, payeeState: Field, payeeZip: Field, extra1: Field,
    primCode: Field, date: Field, amount: Field, recipCommId: Field, party: Field,
    otherCmteId: Field, recipCmteType: Field, realCode: Field, extra2: Field,
    typ: Field, cmteClass: Field, microfilm: Field, fecType: Field, primCode2: Field,
    source: Field)

  /** `source_table`. */
  datatype SourceTable = PacsToCandidatesTable | PacToPacTable

  /** A row of `pacs_to_pres`. `di` is 'D' (direct contribution) or 'I'
      (independent expenditure) as the source says, and NULL on rows from
      `pac_to_pac`. */
  datatype PacToPres = PacToPres(
    cycle: Field, era: Option<Era>, fecTransId: Field, commId: Field, candId: Field,
    recipParty: Field, recipName: Field, primCode: Field, typ: Field, di: Field,
    date: Field, amount: Option<real>, amount2024: Option<real>, direction: Direction,
    source: SourceTable)

  // ---------------------------------------------------------------------------
  // Primary branch: pacs_to_candidates

  predicate PrimaryKept(p: PacToCandidate) {
    CodeKept(p.primCode)
  }

  /** `ON p.CandID = c.CID AND p.Cycle = c.Cycle`. */
  predicate PrimaryMatches(p: PacToCandidate, c: PresCandidate) {
    SameText(p.candId, c.cid) && SameText(p.cycle, c.cycle)
  }

  function MakePrimary(cpi: CpiTable, p: PacToCandidate, c: PresCandidate): PacToPres {
    var amount := Amount(p.amount);
    PacToPres(
      p.cycle, c.era, p.fecTransId, p.commId, p.candId,
      c.party, c.crpName, p.primCode, p.typ, p.di,
      p.date, amount, Amount2024(amount, cpi, p.cycle), PacDirection(c.party, p.typ),
      PacsToCandidatesTable)
  }

  function PrimaryRow(cpi: CpiTable): (PacToCandidate, PresCandidate) -> PacToPres {
    (p, c) => MakePrimary(cpi, p, c)
  }

  function Primary(pacs: seq<PacToCandidate>, pres: seq<PresCandidate>, cpi: CpiTable): (r: seq<PacToPres>)
    ensures |r| == MatchTotal(Filter(pacs, PrimaryKept), pres, PrimaryMatches)
  {
    JoinLength(Filter(pacs, PrimaryKept), pres, PrimaryMatches, PrimaryRow(cpi));
    Join(Filter(pacs, PrimaryKept), pres, PrimaryMatches, PrimaryRow(cpi))
  }

  // ---------------------------------------------------------------------------
  // Secondary branch: pac_to_pac

  /** This branch filters on RealCode, where the primary one uses PrimCode. */
  predicate SecondaryKept(po: PacToPac) {
    CodeKept(po.realCode)
  }

  /** `ON po.RecipCommID = c.CID AND po.Cycle = c.Cycle`. */
  predicate SecondaryMatches(po: PacToPac, c: PresCandidate) {
    SameText(po.recipCommId, c.cid) && SameText(po.cycle, c.cycle)
  }

  function MakeSecondary(cpi: CpiTable, po: PacToPac, c: PresCandidate): PacToPres {
    var amount := Amount(po.amount);
    PacToPres(
      po.cycle, c.era, po.fecTransId, po.commId, po.recipCommId,
      c.party, c.crpName, po.primCode, po.fecType, None,
      po.date, amount, Amount2024(amount, cpi, po.cycle), PartyDirection(c.party),
      PacToPacTable)
  }

  function SecondaryRow(cpi: CpiTable): (PacToPac, PresCandidate) -> PacToPres {
    (po, c) => MakeSecondary(cpi, po, c)
  }

  function Secondary(others: seq<PacToPac>, pres: seq<PresCandidate>, cpi: CpiTable): (r: seq<PacToPres>)
    ensures |r| == MatchTotal(Filter(others, SecondaryKept), pres, SecondaryMatches)
  {
    JoinLength(Filter(others, SecondaryKept), pres, SecondaryMatches, SecondaryRow(cpi));
    Join(Filter(others, SecondaryKept), pres, SecondaryMatches, SecondaryRow(cpi))
  }

  // ---------------------------------------------------------------------------
  // UNION ALL

  /** `pacs_to_pres`: the primary rows followed by the secondary rows, with
      no row of either dropped or merged. */
  function PacsToPres(pacs: seq<PacToCandidate>, others: seq<PacToPac>, pres: seq<PresCandidate>, cpi: CpiTable): (r: seq<PacToPres>)
    ensures |r| == |Primary(pacs, pres, cpi)| + |Secondary(others, pres, cpi)|
    ensures r[..|Primary(pacs, pres, cpi)|] == Primary(pacs, pres, cpi)
    ensures r[|Primary(pacs, pres, cpi)|..] == Secondary(others, pres, cpi)
  {
    Primary(pacs, pres, cpi) + Secondary(others, pres, cpi)
  }

  /** Every primary row: a kept PrimCode, a presidential candidate matched on
      CandID and Cycle, direction by party and transaction type, the DI flag
      of its source row, and the `pacs_to_candidates` tag. */
  lemma PrimaryRowFacts(pacs: seq<PacToCandidate>, pres: seq<PresCandidate>, cpi: CpiTable, z: PacToPres)
    requires z in Primary(pacs, pres, cpi)
    ensures CodeKept(z.primCode) && z.source == PacsToCandidatesTable
    ensures exists p, c :: (p in pacs && c in pres && SameText(p.candId, c.cid) && SameText(p.cycle, c.cycle)
                            && z.candId == p.candId && z.di == p.di && z.typ == p.typ
                            && z.recipParty == c.party && z.era == c.era)
    ensures z.direction == PacDirection(z.recipParty, z.typ)
    ensures z.amount2024 == Amount2024(z.amount, cpi, z.cycle)
  {
    JoinMember(Filter(pacs, PrimaryKept), pres, PrimaryMatches, PrimaryRow(cpi), z);
    var p, c :| p in Filter(pacs, PrimaryKept) && c in pres && PrimaryMatches(p, c) && z == MakePrimary(cpi, p, c);
    assert SameText(p.candId, c.cid) && SameText(p.cycle, c.cycle);
  }

  /** Every secondary row: a kept RealCode, a presidential candidate matched on
      RecipCommID and Cycle, that RecipCommID as CandID, FECType as Type, a
      NULL DI, direction by party alone, and the `pac_to_pac` tag. */
  lemma SecondaryRowFacts(others: seq<PacToPac>, pres: seq<PresCandidate>, cpi: CpiTable, z: PacToPres)
    requires z in Secondary(others, pres, cpi)
    ensures z.di.None? && z.source == PacToPacTable
    ensures exists po, c :: (po in others && c in pres && CodeKept(po.realCode)
                             && SameText(po.recipCommId, c.cid) && SameText(po.cycle, c.cycle)
                             && z.candId == po.recipCommId && z.typ == po.fecType
                             && z.recipParty == c.party && z.era == c.era)
    ensures z.direction == PartyDirection(z.recipParty)
    ensures z.amount2024 == Amount2024(z.amount, cpi, z.cycle)
  {
    JoinMember(Filter(others, SecondaryKept), pres, SecondaryMatches, SecondaryRow(cpi), z);
    var po, c :| po in Filter(others, SecondaryKept) && c in pres && SecondaryMatches(po, c) && z == MakeSecondary(cpi, po, c);
    assert SameText(po.recipCommId, c.cid) && SameText(po.cycle, c.cycle);
  }

  /** A row of `pacs_to_pres` with a DI flag comes from `pacs_to_candidates`;
      a row tagged `pac_to_pac` has none. */
  lemma PacsToPresDi(pacs: seq<PacToCandidate>, others: seq<PacToPac>, pres: seq<PresCandidate>, cpi: CpiTable, z: PacToPres)
    requires z in PacsToPres(pacs, others, pres, cpi)
    ensures z.di.Some? ==> z.source == PacsToCandidatesTable
    ensures z.source == PacToPacTable ==> z.di.None? && z in Secondary(others, pres, cpi)
  {
    if z in Primary(pacs, pres, cpi) {
      PrimaryRowFacts(pacs, pres, cpi, z);
    } else {
      SecondaryRowFacts(others, pres, cpi, z);
    }
  }
}
