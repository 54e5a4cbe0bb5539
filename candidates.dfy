/** `create_pres_candidates`: the presidential rows of the `candidates` table,
    each with its era. */
module Candidates {
  import opened Sql
  import opened Rel
  import opened Classify

  /** A row of the raw `candidates` table (all columns TEXT). */
  datatype Candidate = Candidate(
    cycle: Field, fecCanId: Field, cid: Field, crpName: Field, party: Field,
    distIdRunFor: Field, distIdRunIn: Field, currCand: Field, cycleCand: Field,
    crpIco: Field, recipCode: Field, noPacs: Field)

  /** A row of `pres_candidates`. */
  datatype PresCandidate = PresCandidate(
    cycle: Field, cid: Field, fecCanId: Field, crpName: Field, party: Field,
    distIdRunFor: Field, cycleCand: Field, recipCode: Field, era: Option<Era>)

  /** `WHERE DistIDRunFor = 'PRES'`. */
  predicate IsPresidential(c: Candidate) {
    Is(c.distIdRunFor, "PRES")
  }

  /** The SELECT list: eight columns kept and the era added. */
  function ToPres(c: Candidate): PresCandidate {
    PresCandidate(c.cycle, c.cid, c.fecCanId, c.crpName, c.party, c.distIdRunFor,
                  c.cycleCand, c.recipCode, EraFromCycle(c.cycle))
  }

  /** `pres_candidates`: one row per presidential `candidates` row, with no
      deduplication; every row is a 'PRES' row whose era follows its cycle. */
  function PresCandidates(cands: seq<Candidate>): (r: seq<PresCandidate>)
    ensures |r| == CountIf(cands, IsPresidential)
    ensures forall p :: p in r ==> Is(p.distIdRunFor, "PRES") && p.era == EraFromCycle(p.cycle)
  {
    var r := Map(Filter(cands, IsPresidential), ToPres);
    forall p | p in r ensures Is(p.distIdRunFor, "PRES") && p.era == EraFromCycle(p.cycle) {
      MapMember(Filter(cands, IsPresidential), ToPres, p);
    }
    r
  }

  /** The rows of `pres_candidates` are exactly the projections of the
      presidential candidates. */
  lemma PresCandidatesMember(cands: seq<Candidate>, p: PresCandidate)
    ensures p in PresCandidates(cands) <==> exists c :: c in cands && IsPresidential(c) && p == ToPres(c)
  {
    MapMember(Filter(cands, IsPresidential), ToPres, p);
  }

  /** Multiplicity is kept: each output row occurs as often as there are
      presidential input rows that project to it, so a candidate listed
      twice for a cycle is in the table twice. */
  lemma PresCandidatesMultiplicity(cands: seq<Candidate>, p: PresCandidate)
    ensures multiset(PresCandidates(cands))[p] == |Filter(cands, PassesTo(IsPresidential, ToPres, p))|
  {
    MapFilterCount(cands, IsPresidential, ToPres, p);
  }
}
