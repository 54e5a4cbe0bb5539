/** `create_indivs_to_pres`: individual contributions whose recipient is a
    presidential candidate of the same cycle. */
module Contributions {
  import opened Sql
  import opened Rel
  import opened Classify
  import opened Cpi
  import opened Candidates

  /** A row of the raw `individual_contributions` table. */
  datatype Contribution = Contribution(
    cycle: Field, fecTransId: Field, contribId: Field, contributor: Field, recipId: Field,
    orgname: Field, ultOrg: Field, realCode: Field, date: Field, amount: Field,
    street: Field, city: Field, state: Field, zip: Field, recipCode: Field,
    typ: Field, cmteId: Field, otherId: Field, gender: Field, microfilm: Field,
    occupation: Field, employer: Field, source: Field)

  /** A row of `indivs_to_pres`. */
  datatype IndivToPres = IndivToPres(
    cycle: Field, era: Option<Era>, fecTransId: Field, contribId: Field, contributor: Field,
    recipId: Field, recipParty: Field, recipName: Field, realCode: Field, date: Field,
    amount: Option<real>, amount2024: Option<real>, city: Field, state: Field,
    recipCode: Field, typ: Field, cmteId: Field, gender: Field, occupation: Field,
    employer: Field, direction: Direction)

  /** FEC transaction types of individual contributions. */
  const IndivTypes: seq<string> := ["10", "11", "15", "15E", "15J", "22Y"]

  /** The WHERE clause; it reads only the contribution's columns, so it is
      applied before the join. */
  predicate IndivKept(i: Contribution) {
    CodeKept(i.realCode) && InList(i.typ, IndivTypes)
  }

  /** `ON i.RecipID = c.CID AND i.Cycle = c.Cycle`. */
  predicate IndivMatches(i: Contribution, c: PresCandidate) {
    SameText(i.recipId, c.cid) && SameText(i.cycle, c.cycle)
  }

  function MakeIndiv(cpi: CpiTable, i: Contribution, c: PresCandidate): IndivToPres {
    var amount := Amount(i.amount);
    IndivToPres(
      i.cycle, c.era, i.fecTransId, i.contribId, i.contributor,
      i.recipId, c.party, c.crpName, i.realCode, i.date,
      amount, Amount2024(amount, cpi, i.cycle), i.city, i.state,
      i.recipCode, i.typ, i.cmteId, i.gender, i.occupation,
      i.employer, PartyDirection(c.party))
  }

  function IndivRow(cpi: CpiTable): (Contribution, PresCandidate) -> IndivToPres {
    (i, c) => MakeIndiv(cpi, i, c)
  }

  /** `indivs_to_pres`: one row per kept contribution and matching
      presidential candidate row. */
  function IndivsToPres(indivs: seq<Contribution>, pres: seq<PresCandidate>, cpi: CpiTable): (r: seq<IndivToPres>)
    ensures |r| == MatchTotal(Filter(indivs, IndivKept), pres, IndivMatches)
  {
    JoinLength(Filter(indivs, IndivKept), pres, IndivMatches, IndivRow(cpi));
    Join(Filter(indivs, IndivKept), pres, IndivMatches, IndivRow(cpi))
  }

  /** A row is in the table exactly when it comes from a kept contribution
      and a presidential candidate row it matches. */
  lemma IndivsToPresMember(indivs: seq<Contribution>, pres: seq<PresCandidate>, cpi: CpiTable, z: IndivToPres)
    ensures z in IndivsToPres(indivs, pres, cpi) <==>
      exists i, c :: i in indivs && c in pres && IndivKept(i) && IndivMatches(i, c) && z == MakeIndiv(cpi, i, c)
  {
    JoinMember(Filter(indivs, IndivKept), pres, IndivMatches, IndivRow(cpi), z);
  }

  /** What every row of `indivs_to_pres` satisfies: a valid transaction type,
      a kept RealCode, a presidential candidate of the same cycle whose CID
      is the recipient and whose party, name and era the row carries, party
      alignment without any flip, and the amount in 2024 dollars. */
  lemma IndivsToPresRow(indivs: seq<Contribution>, pres: seq<PresCandidate>, cpi: CpiTable, z: IndivToPres)
    requires z in IndivsToPres(indivs, pres, cpi)
    ensures InList(z.typ, IndivTypes) && CodeKept(z.realCode)
    ensures exists c :: (c in pres && SameText(z.recipId, c.cid) && SameText(z.cycle, c.cycle)
                         && z.recipParty == c.party && z.recipName == c.crpName && z.era == c.era)
    ensures z.direction == PartyDirection(z.recipParty)
    ensures z.amount2024 == Amount2024(z.amount, cpi, z.cycle)
  {
    IndivsToPresMember(indivs, pres, cpi, z);
    var i, c :| i in indivs && c in pres && IndivKept(i) && IndivMatches(i, c) && z == MakeIndiv(cpi, i, c);
    assert SameText(z.recipId, c.cid) && SameText(z.cycle, c.cycle);
  }

  /** `RecipID LIKE 'C%'`: the shape of a committee ID. */
  predicate RecipLooksLikePac(z: IndivToPres) {
    z.recipId.Some? && LikePrefix(z.recipId.value, "C")
  }

  /** Anti-double-counting: a contribution reaches the table only through a
      candidate's CID, so when no presidential CID starts with 'C' (or 'c')
      no recipient in the table does either, and the count the validation
      step makes is 0. */
  lemma NoPacRecipients(indivs: seq<Contribution>, pres: seq<PresCandidate>, cpi: CpiTable)
    requires forall c :: c in pres ==> NotLikeOrNull(c.cid, "C")
    ensures CountIf(IndivsToPres(indivs, pres, cpi), RecipLooksLikePac) == 0
  {
    var r := IndivsToPres(indivs, pres, cpi);
    forall z | z in r ensures !RecipLooksLikePac(z) {
      IndivsToPresRow(indivs, pres, cpi, z);
    }
    FilterNone(r, RecipLooksLikePac);
  }

  /** When the candidate rows have distinct (Cycle, CID) pairs, each kept
      contribution appears at most once, so the table is no larger than the
      contributions it reads. */
  lemma IndivsToPresAtMostOnce(indivs: seq<Contribution>, pres: seq<PresCandidate>, cpi: CpiTable)
    requires forall j, k :: (0 <= j < k < |pres| && pres[j].cid.Some? && pres[j].cycle.Some?
                             ==> pres[j].cid != pres[k].cid || pres[j].cycle != pres[k].cycle)
    ensures |IndivsToPres(indivs, pres, cpi)| <= |Filter(indivs, IndivKept)|
  {
    var kept := Filter(indivs, IndivKept);
    forall i | i in kept ensures Matches(i, pres, IndivMatches) <= 1 {
      MatchesAtMostOne(i, pres, IndivMatches);
    }
    MatchTotalAtMost(kept, pres, IndivMatches);
  }
}
