/** The CASE expressions of the cleaning step: partisan direction of a PAC
    transaction, of an individual contribution and of a 527 committee; the
    election cycle of a 527 filing quarter; and the era of a cycle. */
module Classify {
  import opened Sql

  /** `partisan_direction`: 'pro_R', 'pro_D' or 'unaligned'. */
  datatype Direction = ProR | ProD | Unaligned

  /** `era`: 'pre_CU' or 'post_CU' (a NULL era is `None`). */
  datatype Era = PreCU | PostCU

  /** Transaction types that support the named candidate. */
  const ForTypes: seq<string> := ["24E", "24C", "24F", "24K", "24Z"]

  /** Independent expenditures against the named candidate. */
  const AgainstTypes: seq<string> := ["24A", "24N"]

  /** The four election cycles the cleaning step knows. */
  const StudyCycles: seq<string> := ["2004", "2008", "2012", "2016"]

  /** `(code NOT LIKE 'Z9%' OR code IS NULL) AND (code NOT LIKE 'Z4%' OR code
      IS NULL)`: drops non-contributions and joint fundraising transfers. */
  predicate CodeKept(code: Field) {
    NotLikeOrNull(code, "Z9") && NotLikeOrNull(code, "Z4")
  }

  function Opposite(d: Direction): Direction {
    match d
    case ProR => ProD
    case ProD => ProR
    case Unaligned => Unaligned
  }

  /** Direction from the candidate's party alone (individual contributions and
      the pac_to_pac branch): 'R' is pro_R, 'D' is pro_D, anything else,
      NULL included, is unaligned. */
  function PartyDirection(party: Field): (d: Direction)
    ensures d == ProR <==> Is(party, "R")
    ensures d == ProD <==> Is(party, "D")
  {
    if Is(party, "R") then ProR else if Is(party, "D") then ProD else Unaligned
  }

  /** Direction of a PAC transaction from the candidate's party and the
      transaction type: spending for a candidate supports their party,
      spending against a candidate supports the other major party. */
  function PacDirection(party: Field, typ: Field): (d: Direction)
    ensures InList(typ, ForTypes) ==> d == PartyDirection(party)
    ensures InList(typ, AgainstTypes) ==> d == Opposite(PartyDirection(party))
    ensures !InList(typ, ForTypes) && !InList(typ, AgainstTypes) ==> d == Unaligned
  {
    if Is(party, "R") && InList(typ, ForTypes) then ProR
    else if Is(party, "D") && InList(typ, ForTypes) then ProD
    else if Is(party, "D") && InList(typ, AgainstTypes) then ProR
    else if Is(party, "R") && InList(typ, AgainstTypes) then ProD
    else Unaligned
  }

  /** A third-party candidate is never aligned, whatever the transaction type. */
  lemma PacDirectionMinorParty(party: Field, typ: Field)
    requires !Is(party, "R") && !Is(party, "D")
    ensures PacDirection(party, typ) == Unaligned
  {
    if InList(typ, AgainstTypes) {
      assert Opposite(PartyDirection(party)) == Unaligned;
    }
  }

  /** Spending against a candidate never counts for that candidate's party. */
  lemma PacDirectionAgainst(party: Field, typ: Field)
    requires InList(typ, AgainstTypes)
    ensures PacDirection(party, typ) != Unaligned ==> PacDirection(party, typ) != PartyDirection(party)
  {
  }

  /** Direction of a 527 committee from its ViewPt: 'C' (conservative) is
      pro_R, 'L' (liberal) is pro_D, anything else is unaligned. */
  function ViewPtDirection(viewPt: Field): (d: Direction)
    ensures d == ProR <==> Is(viewPt, "C")
    ensures d == ProD <==> Is(viewPt, "L")
  {
    if Is(viewPt, "C") then ProR else if Is(viewPt, "L") then ProD else Unaligned
  }

  // ---------------------------------------------------------------------------
  // 527 filing quarter -> election cycle

  /** `CAST('20' || substr(QuarterYr, 3, 2) AS INTEGER)`: the text begins with
      the digits "20", so the cast reads "20" followed by the leading digits of
      the two characters after the quarter number. NULL stays NULL. */
  function QuarterYear(q: Field): (y: Option<nat>)
    ensures y.Some? <==> q.Some?
  {
    match q
    case None => None
    case Some(s) =>
      var t := "20" + LeadingDigits(Substr(s, 3, 2));
      assert AllDigits(t) by {
        assert forall i :: 2 <= i < |t| ==> t[i] == LeadingDigits(Substr(s, 3, 2))[i - 2];
      }
      Some(DigitsValue(t))
  }

  /** The `CASE ... WHEN 2003 THEN '2004' ...` table: the odd year before each
      study cycle belongs to that cycle. */
  function CycleOfYear(y: nat): Option<string> {
    if y == 2003 || y == 2004 then Some("2004")
    else if y == 2007 || y == 2008 then Some("2008")
    else if y == 2011 || y == 2012 then Some("2012")
    else if y == 2015 || y == 2016 then Some("2016")
    else None
  }

  /** `CYCLE_FROM_QUARTER`. */
  function CycleFromQuarter(q: Field): (c: Field)
    ensures c.Some? ==> c.value in StudyCycles
  {
    match QuarterYear(q)
    case None => None
    case Some(y) => CycleOfYear(y)
  }

  /** The number a cycle name denotes, e.g. 2008 for "2008". */
  function CycleNumber(c: string): nat
    requires c in StudyCycles
  {
    if c == "2004" then 2004 else if c == "2008" then 2008 else if c == "2012" then 2012 else 2016
  }

  lemma DigitsValueTwo(a: char, b: char)
    requires IsDigit(a) && IsDigit(b)
    ensures DigitsValue(['2', '0', a, b]) == 2000 + 10 * DigitValue(a) + DigitValue(b)
  {
    var s := ['2', '0', a, b];
    assert s[..3] == ['2', '0', a];
    assert ['2', '0', a][..2] == ['2', '0'];
    assert ['2', '0'][..1] == ['2'];
    assert ['2'][..0] == [];
    assert DigitsValue(['2']) == 2;
    assert DigitsValue(['2', '0']) == 20;
    assert DigitsValue(['2', '0', a]) == 200 + DigitValue(a);
  }

  /** For a well-formed quarter code `Q<n><yy>`, the cycle is the study cycle
      whose year is 20yy or the year after it; no other year has a cycle. */
  lemma {:induction false} CycleFromQuarterWellFormed(s: string, c: string)
    requires |s| >= 4 && IsDigit(s[2]) && IsDigit(s[3])
    ensures var y := 2000 + 10 * DigitValue(s[2]) + DigitValue(s[3]);
      CycleFromQuarter(Some(s)) == Some(c) <==> c in StudyCycles && (y == CycleNumber(c) || y + 1 == CycleNumber(c))
  {
    var sub := Substr(s, 3, 2);
    assert sub == [s[2], s[3]];
    assert LeadingDigits(sub) == sub by {
      assert LeadingDigits(sub[1..]) == [s[3]] + LeadingDigits(sub[2..]);
    }
    assert "20" + sub == ['2', '0', s[2], s[3]];
    DigitsValueTwo(s[2], s[3]);
  }

  /** A quarter code whose year part is not two digits has no cycle: the cast
      then reads 20, or a three-digit number 200..209. */
  lemma {:induction false} CycleFromQuarterMalformed(s: string)
    requires |s| < 4 || !IsDigit(s[2]) || !IsDigit(s[3])
    ensures CycleFromQuarter(Some(s)) == None
  {
    var sub := Substr(s, 3, 2);
    var ld := LeadingDigits(sub);
    assert |ld| < 2 by {
      if |s| >= 4 {
        assert sub == [s[2], s[3]];
      }
    }
    var t := "20" + ld;
    assert DigitsValue("20") == 20 by {
      assert "20"[..1] == "2" && "2"[..0] == [];
    }
    if |ld| == 1 {
      assert t[..|t| - 1] == "20";
      assert DigitsValue(t) == 200 + DigitValue(t[2]);
    } else {
      assert t == "20";
    }
  }

  // ---------------------------------------------------------------------------
  // Election cycle -> era

  /** `ERA_FROM_CYCLE`: the CASE has no ELSE, so any other cycle (2020, or
      NULL) has a NULL era. */
  function EraFromCycle(cycle: Field): (e: Option<Era>)
    ensures e.Some? <==> InList(cycle, StudyCycles)
  {
    if Is(cycle, "2004") || Is(cycle, "2008") then Some(PreCU)
    else if Is(cycle, "2012") || Is(cycle, "2016") then Some(PostCU)
    else None
  }

  /** The era boundary is the 2010 Citizens United decision. */
  lemma EraSplitsAt2010(c: string)
    requires c in StudyCycles
    ensures EraFromCycle(Some(c)) == Some(if CycleNumber(c) < 2010 then PreCU else PostCU)
  {
  }
}
