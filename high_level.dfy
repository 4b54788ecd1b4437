/**
 * High-level eligibility checker: one check per applicable regulation, each
 * evaluating four named criteria against the client record. The check is
 * passed exactly when all four criteria hold.
 */
module HighLevel {
  import opened Checks
  import Text

  /** Regulations whose AUM criterion is a real threshold; for all others it holds. */
  const FundRegimes: seq<string> := ["AIFMD", "UCITS"]
  const AumThresholdUsd: real := 100000000.0
  const SupportedJurisdictions: seq<string> := ["US", "UK", "EU", "SG"]
  const EligibleEntityTypes: seq<string> := ["hedge_fund", "investment_advisor", "bank"]
  const BusinessKeyword: string := "investment"

  /** The result data of the check of `client` against `regulation`. */
  function EvaluateCriteria(client: ClientData, regulation: string): HighLevelCriteria
  {
    HighLevelCriteria(
      aumThresholdMet := if regulation in FundRegimes then client.aumUsd >= AumThresholdUsd else true,
      jurisdictionSupported := client.jurisdiction in SupportedJurisdictions,
      entityTypeEligible := client.entityType.Value() in EligibleEntityTypes,
      businessTypeApproved := Text.Contains(Text.ToLower(client.businessType), BusinessKeyword))
  }

  /** The AUM criterion is a threshold only for AIFMD and UCITS and holds for every other regulation. */
  lemma AumCriterionScope(client: ClientData, regulation: string)
    ensures regulation == "AIFMD" || regulation == "UCITS" ==>
              (EvaluateCriteria(client, regulation).aumThresholdMet <==> client.aumUsd >= 100000000.0)
    ensures regulation != "AIFMD" && regulation != "UCITS" ==>
              EvaluateCriteria(client, regulation).aumThresholdMet
  {
  }

  /** Jurisdiction, entity type and business type do not depend on the regulation. */
  lemma OtherCriteriaIgnoreRegulation(client: ClientData, r1: string, r2: string)
    ensures EvaluateCriteria(client, r1).jurisdictionSupported == EvaluateCriteria(client, r2).jurisdictionSupported
    ensures EvaluateCriteria(client, r1).entityTypeEligible == EvaluateCriteria(client, r2).entityTypeEligible
    ensures EvaluateCriteria(client, r1).businessTypeApproved == EvaluateCriteria(client, r2).businessTypeApproved
  {
  }

  /** Exactly hedge funds, investment advisors and banks are eligible entity types. */
  lemma EntityTypeEligibility(client: ClientData, regulation: string)
    ensures EvaluateCriteria(client, regulation).entityTypeEligible <==>
              client.entityType in {HedgeFund, InvestmentAdvisor, Bank}
  {
  }

  /**
   * The business-type criterion is a case-insensitive substring test: it
   * holds exactly when "investment" occurs in the lower-cased business type,
   * so two business types that lower-case alike are judged alike.
   */
  lemma BusinessTypeCriterion(client: ClientData, regulation: string)
    ensures EvaluateCriteria(client, regulation).businessTypeApproved <==>
              exists i :: Text.OccursAt(Text.ToLower(client.businessType), "investment", i)
    ensures EvaluateCriteria(client, regulation).businessTypeApproved ==
              EvaluateCriteria(client.(businessType := Text.ToLower(client.businessType)), regulation).businessTypeApproved
  {
    Text.ContainsIffOccurs(Text.ToLower(client.businessType), BusinessKeyword);
    Text.ToLowerIdempotent(client.businessType);
  }

  /** The check of `client` against one regulation. */
  function HighLevelCheckFor(client: ClientData, regulation: string, now: Time): (r: HighLevelCheck)
    ensures r.regulationName == regulation
    ensures r.resultData == EvaluateCriteria(client, regulation)
    ensures r.status == Passed <==>
              (EvaluateCriteria(client, regulation).aumThresholdMet &&
               EvaluateCriteria(client, regulation).jurisdictionSupported &&
               EvaluateCriteria(client, regulation).entityTypeEligible &&
               EvaluateCriteria(client, regulation).businessTypeApproved)
    ensures r.status == Passed || r.status == Failed
    ensures r.createdAt == now && r.completedAt == Some(now)
  {
    var resultData := EvaluateCriteria(client, regulation);
    var checkPassed := resultData.AllMet();
    HighLevelCheck(
      regulationName := regulation,
      checkDescription := "High-level eligibility check for " + regulation,
      status := if checkPassed then Passed else Failed,
      resultData := resultData,
      createdAt := now,
      completedAt := Some(now))
  }

  /** The checks for a list of regulations, one per regulation, in list order. */
  function HighLevelChecks(client: ClientData, regulations: seq<string>, now: Time): seq<HighLevelCheck>
  {
    seq(|regulations|, i requires 0 <= i < |regulations| => HighLevelCheckFor(client, regulations[i], now))
  }

  /** Builds the high-level checks by appending one check per regulation. */
  method GenerateHighLevelChecks(client: ClientData, regulations: seq<string>, now: Time)
    returns (checks: seq<HighLevelCheck>)
    ensures checks == HighLevelChecks(client, regulations, now)
    ensures |checks| == |regulations|
    ensures forall i :: 0 <= i < |regulations| ==>
              && checks[i].regulationName == regulations[i]
              && (checks[i].status == Passed <==> EvaluateCriteria(client, regulations[i]).AllMet())
              && (checks[i].status == Passed || checks[i].status == Failed)
              && checks[i].completedAt == Some(now)
  {
    checks := [];
    for k := 0 to |regulations|
      invariant |checks| == k
      invariant forall j :: 0 <= j < k ==> checks[j] == HighLevelCheckFor(client, regulations[j], now)
    {
      checks := checks + [HighLevelCheckFor(client, regulations[k], now)];
    }
  }
}
