/**
 * Data model of the regulatory classification engine: the status and entity
 * enumerations, the client record, the three kinds of check record and the
 * classification that owns them.
 *
 * Clock readings are supplied by the caller as `Time` values; the random
 * check identifiers of the Python service (app.py) are not part of the model.
 */
module Checks {

  datatype Option<+T> = None | Some(value: T)

  /** A clock reading supplied by the caller (one reading per engine call). */
  type Time = nat

  datatype CheckStatus = Pending | InProgress | Passed | Failed | ManualReview
  {
    /** The wire spelling of the status. */
    function Value(): string
    {
      match this
      case Pending => "pending"
      case InProgress => "in_progress"
      case Passed => "passed"
      case Failed => "failed"
      case ManualReview => "manual_review"
    }

    /** A check in one of these two statuses counts as completed for progress. */
    predicate IsTerminal()
    {
      this == Passed || this == Failed
    }
  }

  datatype EntityType = HedgeFund | InvestmentAdvisor | PensionFund | InsuranceCompany | Bank | Corporate
  {
    /** The wire spelling of the entity type. */
    function Value(): string
    {
      match this
      case HedgeFund => "hedge_fund"
      case InvestmentAdvisor => "investment_advisor"
      case PensionFund => "pension_fund"
      case InsuranceCompany => "insurance_company"
      case Bank => "bank"
      case Corporate => "corporate"
    }
  }

  datatype ClientData = ClientData(
    clientId: string,
    entityName: string,
    entityType: EntityType,
    jurisdiction: string,
    aumUsd: real,
    businessType: string,
    contactPerson: string,
    email: string,
    createdAt: Time)

  /** The named boolean criteria of a high-level check (its result data). */
  datatype HighLevelCriteria = HighLevelCriteria(
    aumThresholdMet: bool,
    jurisdictionSupported: bool,
    entityTypeEligible: bool,
    businessTypeApproved: bool)
  {
    predicate AllMet()
    {
      aumThresholdMet && jurisdictionSupported && entityTypeEligible && businessTypeApproved
    }
  }

  datatype HighLevelCheck = HighLevelCheck(
    regulationName: string,
    checkDescription: string,
    status: CheckStatus,
    resultData: HighLevelCriteria,
    createdAt: Time,
    completedAt: Option<Time>)

  datatype DocumentCheck = DocumentCheck(
    regulationName: string,
    documentType: string,
    documentId: string,
    aiValidationStatus: CheckStatus,
    manualReviewStatus: CheckStatus,
    aiConfidence: real,
    aiFeedback: string,
    manualNotes: string,
    createdAt: Time,
    completedAt: Option<Time>)

  datatype DataQualityCheck = DataQualityCheck(
    regulationName: string,
    fieldName: string,
    status: CheckStatus,
    dqScore: real,
    issues: seq<string>,
    createdAt: Time,
    completedAt: Option<Time>)

  datatype RegulatoryClassification = RegulatoryClassification(
    clientId: string,
    classificationId: string,
    status: CheckStatus,
    highLevelChecks: seq<HighLevelCheck>,
    documentChecks: seq<DocumentCheck>,
    dqChecks: seq<DataQualityCheck>,
    overallProgress: real,
    createdAt: Time,
    completedAt: Option<Time>)
}
