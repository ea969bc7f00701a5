/**
 The recommendation rules of `suggest_next_action`: an ordered list of
 independent triggers with a fallback action, and a three-way priority
 decided by strict value thresholds.
 */
module Advice {
  import opened Deals

  /** The recommended actions, listed in the order the rules are applied;
      `MaintainCadence` is the fallback when no rule fires. */
  datatype Action =
    | ReEngage
    | DecisionMakerMeeting
    | ClarifyRequirements
    | ProposalFollowUp
    | OfferIncentive
    | MaintainCadence

  /** The text the server returns for each action. */
  function Text(a: Action): string {
    match a
    case ReEngage => "Re-engage client with follow-up call or email"
    case DecisionMakerMeeting => "Schedule decision-maker meeting to accelerate closure"
    case ClarifyRequirements => "Clarify business requirements and confirm budget"
    case ProposalFollowUp => "Follow up on proposal feedback and objections"
    case OfferIncentive => "Offer incentive or revised pricing to close deal"
    case MaintainCadence => "Maintain regular communication cadence"
  }

  /** Position of an action's rule in the order the rules are applied. */
  function Rank(a: Action): nat {
    match a
    case ReEngage => 0
    case DecisionMakerMeeting => 1
    case ClarifyRequirements => 2
    case ProposalFollowUp => 3
    case OfferIncentive => 4
    case MaintainCadence => 5
  }

  /** The trigger of each rule; the fallback has none of its own. */
  predicate Fires(a: Action, d: Deal) {
    match a
    case ReEngage => Silent(d)
    case DecisionMakerMeeting => Stale(d)
    case ClarifyRequirements => d.stage == Discovery
    case ProposalFollowUp => d.stage == Proposal
    case OfferIncentive => d.stage == Negotiation
    case MaintainCadence => false
  }

  /** Some trigger rule matches the deal. */
  predicate AnyRuleFires(d: Deal) {
    Silent(d) || Stale(d) || d.stage == Discovery || d.stage == Proposal || d.stage == Negotiation
  }

  /** The actions recommended for a deal: every rule whose trigger holds
      contributes its action, in rule order; if none does, the single
      fallback action is recommended. */
  function Actions(d: Deal): (r: seq<Action>)
    ensures 1 <= |r| <= 3
    ensures r == [MaintainCadence] <==> !AnyRuleFires(d)
    ensures forall a :: a in r <==> (if AnyRuleFires(d) then Fires(a, d) else a == MaintainCadence)
    ensures forall i, j | 0 <= i < j < |r| :: Rank(r[i]) < Rank(r[j])
  {
    var triggered :=
      (if Silent(d) then [ReEngage] else [])
      + (if Stale(d) then [DecisionMakerMeeting] else [])
      + (if d.stage == Discovery then [ClarifyRequirements] else [])
      + (if d.stage == Proposal then [ProposalFollowUp] else [])
      + (if d.stage == Negotiation then [OfferIncentive] else []);
    assert MaintainCadence !in triggered;
    if triggered == [] then [MaintainCadence] else triggered
  }

  /** In a list in strictly increasing rule order, the head has the least
      rank and nothing after the head repeats it. */
  lemma HeadHasLeastRank(s: seq<Action>, a: Action)
    requires forall i, j | 0 <= i < j < |s| :: Rank(s[i]) < Rank(s[j])
    requires a in s
    ensures Rank(s[0]) <= Rank(a)
    ensures a in s[1..] ==> Rank(s[0]) < Rank(a)
  {
    var k :| 0 <= k < |s| && s[k] == a;
    if a in s[1..] {
      var m :| 1 <= m < |s| && s[m] == a;
      assert Rank(s[0]) < Rank(s[m]);
    }
  }

  /** Two action lists with the same members, each in strictly increasing
      rule order, are equal: the contract of `Actions` determines its
      result completely. */
  lemma {:induction false} RankOrderedUnique(s: seq<Action>, t: seq<Action>)
    requires forall i, j | 0 <= i < j < |s| :: Rank(s[i]) < Rank(s[j])
    requires forall i, j | 0 <= i < j < |t| :: Rank(t[i]) < Rank(t[j])
    requires forall a :: a in s <==> a in t
    ensures s == t
  {
    assert s != [] ==> s[0] in t;
    assert t != [] ==> t[0] in s;
    if s != [] && t != [] {
      HeadHasLeastRank(s, t[0]);
      HeadHasLeastRank(t, s[0]);
      assert s[0] == t[0];
      forall a
        ensures a in s[1..] <==> a in t[1..]
      {
        if a in s {
          HeadHasLeastRank(s, a);
          HeadHasLeastRank(t, a);
          assert a in s[1..] <==> a != s[0];
          assert a in t[1..] <==> a != t[0];
        }
      }
      RankOrderedUnique(s[1..], t[1..]);
    }
  }

  /** The worked examples: a fresh Discovery deal gets exactly the
      Discovery action, and a deal matching no rule gets the fallback. */
  lemma ActionsExamples()
    ensures Actions(Deal("d", "c", 0, Discovery, 0, 0)) == [ClarifyRequirements]
    ensures Actions(Deal("d", "c", 0, "Closed", 30, 7)) == [MaintainCadence]
    ensures Actions(Deal("d", "c", 0, Negotiation, 31, 8)) == [ReEngage, DecisionMakerMeeting, OfferIncentive]
  {
  }

  /** The priority of a deal, decided by its value alone. */
  datatype Priority = High | Medium | Low

  function Label(p: Priority): string {
    match p
    case High => "High"
    case Medium => "Medium"
    case Low => "Low"
  }

  const HighValueThreshold: int := 75000
  const MediumValueThreshold: int := 30000

  /** High above 75000, Medium above 30000 up to and including 75000, Low
      otherwise; both thresholds are strict. */
  function PriorityOf(value: int): (p: Priority)
    ensures p == High <==> value > 75000
    ensures p == Medium <==> 30000 < value <= 75000
    ensures p == Low <==> value <= 30000
  {
    if value > HighValueThreshold then High
    else if value > MediumValueThreshold then Medium
    else Low
  }

  function Urgency(p: Priority): nat {
    match p
    case Low => 0
    case Medium => 1
    case High => 2
  }

  /** A larger deal never gets a lower priority. */
  lemma PriorityMonotone(v: int, w: int)
    requires v <= w
    ensures Urgency(PriorityOf(v)) <= Urgency(PriorityOf(w))
  {
  }

  lemma PriorityExamples()
    ensures PriorityOf(80000) == High
    ensures PriorityOf(75000) == Medium
    ensures PriorityOf(30001) == Medium
    ensures PriorityOf(30000) == Low
  {
  }
}
