/**
 The deal record of the sales-pipeline server and its close-probability
 score: a fixed-delta risk accumulator over three conditions, clamped from
 below at 5.
 */
module Deals {

  /** One row of the `deals` table. The numeric columns are plain integers:
      the table declares them INTEGER and nothing in the server rejects a
      negative value, so none of the facts below assume one is non-negative. */
  datatype Deal = Deal(
    dealId: string,
    company: string,
    value: int,
    stage: string,
    daysInPipeline: int,
    lastContactDays: int)

  /* The stage labels the server compares against, by exact string match. */
  const Discovery: string := "Discovery"
  const Proposal: string := "Proposal"
  const Negotiation: string := "Negotiation"

  /* Risk deltas and the floor of the score. */
  const StaleRisk: int := 15
  const SilentRisk: int := 20
  const NegotiationRelief: int := 10
  const ScoreFloor: int := 5

  /** The deal has been in the pipeline for more than 30 days. */
  predicate Stale(d: Deal) {
    d.daysInPipeline > 30
  }

  /** The client has not been contacted for more than 7 days. */
  predicate Silent(d: Deal) {
    d.lastContactDays > 7
  }

  predicate InNegotiation(d: Deal) {
    d.stage == Negotiation
  }

  /** The risk the scorer accumulates, one adjustment after the other. */
  function Risk(d: Deal): (risk: int)
    ensures -NegotiationRelief <= risk <= StaleRisk + SilentRisk
  {
    var risk := 0;
    var risk := if Stale(d) then risk + StaleRisk else risk;
    var risk := if Silent(d) then risk + SilentRisk else risk;
    if InNegotiation(d) then risk - NegotiationRelief else risk
  }

  function Max(a: int, b: int): int {
    if a >= b then a else b
  }

  /** Close probability of a deal: `max(5, 100 - risk)`.
      The accumulated risk lies in [-10, 35], so the score lies in
      [65, 110]: the floor of 5 never takes effect and the score exceeds
      100 exactly for a fresh, recently contacted deal in negotiation. */
  function Score(d: Deal): (p: int)
    ensures 65 <= p <= 110
    ensures p == 100 - Risk(d)
    ensures p == 100 <==> !Stale(d) && !Silent(d) && !InNegotiation(d)
    ensures p > 100 <==> InNegotiation(d) && !Stale(d) && !Silent(d)
  {
    Max(ScoreFloor, 100 - Risk(d))
  }

  /** The score as a sum of independent contributions, one per condition:
      a reference definition that does not go through the accumulator. */
  function ScoreByCases(d: Deal): int {
    100
    - (if d.daysInPipeline > 30 then 15 else 0)
    - (if d.lastContactDays > 7 then 20 else 0)
    + (if d.stage == "Negotiation" then 10 else 0)
  }

  lemma ScoreMatchesCases(d: Deal)
    ensures Score(d) == ScoreByCases(d)
    ensures Score(d) in {65, 75, 80, 85, 90, 95, 100, 110}
  {
  }

  /** Ageing never helps: with the stage fixed, a deal that is older or
      has gone longer without contact never scores higher. */
  lemma ScoreAntitoneInAge(d: Deal, e: Deal)
    requires d.stage == e.stage
    requires d.daysInPipeline <= e.daysInPipeline
    requires d.lastContactDays <= e.lastContactDays
    ensures Score(e) <= Score(d)
  {
  }

  /** Moving a deal into negotiation raises its score by exactly 10. */
  lemma NegotiationRaisesScore(d: Deal)
    requires !InNegotiation(d)
    ensures Score(d.(stage := Negotiation)) == Score(d) + NegotiationRelief
  {
  }

  /** The worked examples: a Negotiation deal with both age triggers scores
      75; a deal with neither trigger outside Negotiation scores 100. */
  lemma ScoreExamples()
    ensures Score(Deal("d", "c", 0, Negotiation, 31, 8)) == 75
    ensures Score(Deal("d", "c", 0, Discovery, 30, 7)) == 100
    ensures Score(Deal("d", "c", 0, Proposal, 31, 0)) == 85
  {
  }
}
