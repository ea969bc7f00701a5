/**
 The `suggest_next_action` tool: look the deal up, then report its
 priority and recommended actions.
 */
module Tools {
  import opened Deals
  import opened Advice
  import opened DealStore

  datatype Recommendation = Recommendation(
    dealId: string,
    company: string,
    priority: Priority,
    recommendedActions: seq<Action>)

  /** The recommendation for the deal with that id, or the not-found
      marker. The priority comes from the value alone and the actions from
      the counters and the stage alone. */
  function SuggestNextAction(s: Store, id: string): (r: Lookup<Recommendation>)
    ensures r.Error? <==> id !in s
    ensures r.Error? ==> r.message == DealNotFound
    ensures r.Found? ==>
      && r.value.dealId == id
      && r.value.company == s[id].company
      && r.value.priority == PriorityOf(s[id].value)
      && r.value.recommendedActions == Actions(s[id])
  {
    match FetchDeal(s, id)
    case None => Error(DealNotFound)
    case Some(d) => Found(Recommendation(id, d.company, PriorityOf(d.value), Actions(d)))
  }

  /** The single action a freshly created deal is given: its stage action,
      or the fallback for any other stage. */
  function FreshAction(stage: string): Action {
    if stage == Discovery then ClarifyRequirements
    else if stage == Proposal then ProposalFollowUp
    else if stage == Negotiation then OfferIncentive
    else MaintainCadence
  }

  /** A freshly created deal has zeroed counters, so no age rule fires and
      exactly one action is recommended. */
  lemma FreshDealAdvice(s: Store, id: string, company: string, value: int, stage: string)
    requires id !in s
    requires FitsInteger(value)
    ensures SuggestNextAction(CreateDeal(s, id, company, value, stage).store, id)
         == Found(Recommendation(id, company, PriorityOf(value), [FreshAction(stage)]))
  {
    var d := Deal(id, company, value, stage, 0, 0);
    assert CreateDeal(s, id, company, value, stage).store[id] == d;
    assert !Silent(d) && !Stale(d);
    RankOrderedUnique(Actions(d), [FreshAction(stage)]);
  }

  /** Changing only a deal's value leaves its actions as they were;
      changing only its stage leaves its priority as it was. */
  lemma PriorityIndependentOfActions(s: Store, id: string, value: int, stage: string)
    requires id in s
    requires FitsInteger(value) && FitsInteger(s[id].value)
    ensures var d := s[id];
            var byValue := SuggestNextAction(UpdateDeal(s, id, d.company, value, d.stage).store, id);
            var byStage := SuggestNextAction(UpdateDeal(s, id, d.company, d.value, stage).store, id);
            && byValue.Found? && byValue.value.recommendedActions == Actions(d)
            && byStage.Found? && byStage.value.priority == PriorityOf(d.value)
  {
  }
}
