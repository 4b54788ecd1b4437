/**
 * Data-quality checker: the data-quality service reports one result per
 * monitored field, and the engine turns every (regulation, field) result into
 * one check. The field rule of the stand-in service (a field passes exactly
 * when its score is at least 0.8) is modelled with its random draws as input.
 */
module DataQuality {
  import opened Checks

  /** One field's entry in the data-quality service's response. */
  datatype FieldResult = FieldResult(fieldName: string, score: real, status: string, issues: seq<string>)

  /** How many issue descriptions a failing field keeps: a draw between 0 and 2 inclusive. */
  type KeptIssues = n: nat | n <= 2

  /** The random draws of the stand-in service for one field: its score and how many issues it keeps. */
  datatype FieldDraw = FieldDraw(score: real, keptIssues: KeptIssues)

  const FieldsToCheck: seq<string> := [
    "entity_name", "registration_number", "jurisdiction",
    "business_address", "contact_information", "financial_data",
    "regulatory_permissions", "reporting_obligations"
  ]

  const PassingScore: real := 0.8

  /** The issue descriptions a failing field can carry, in order. */
  function IssueMessages(field: string): seq<string>
  {
    [
      "Data completeness: " + field + " missing required sub-fields",
      "Data format: " + field + " format validation failed",
      "Data freshness: " + field + " last updated > 90 days ago"
    ]
  }

  /** Prefix of at most `n` elements (a slice `s[:n]` with `n` non-negative). */
  function Take<T>(s: seq<T>, n: nat): (r: seq<T>)
    ensures |r| <= n && r <= s
    ensures n <= |s| ==> |r| == n
    ensures |s| < n ==> r == s
  {
    if n <= |s| then s[..n] else s
  }

  /** The stand-in service's result for one field. */
  function MockFieldResult(field: string, draw: FieldDraw): (r: FieldResult)
    ensures r.fieldName == field && r.score == draw.score
    ensures r.status == "PASSED" <==> draw.score >= 0.8
    ensures r.status == "PASSED" || r.status == "FAILED"
    ensures r.status == "PASSED" ==> r.issues == []
    ensures r.status != "PASSED" ==> r.issues == Take(IssueMessages(field), draw.keptIssues)
    ensures |r.issues| <= 2
  {
    var issues := if draw.score < PassingScore then IssueMessages(field) else [];
    assert "PASSED"[0] != "FAILED"[0];
    FieldResult(
      fieldName := field,
      score := draw.score,
      status := if draw.score >= PassingScore then "PASSED" else "FAILED",
      issues := Take(issues, draw.keptIssues))
  }

  /** The stand-in service's field results for one regulation, one per monitored field, in catalog order. */
  function MockDqFieldResults(clientId: string, regulation: string, draw: (string, string) -> FieldDraw): (r: seq<FieldResult>)
    ensures |r| == |FieldsToCheck|
    ensures forall j :: 0 <= j < |r| ==>
              && r[j].fieldName == FieldsToCheck[j]
              && (r[j].status == "PASSED" <==> draw(regulation, FieldsToCheck[j]).score >= 0.8)
              && |r[j].issues| <= 2
  {
    var results := seq(|FieldsToCheck|, j requires 0 <= j < |FieldsToCheck| =>
      MockFieldResult(FieldsToCheck[j], draw(regulation, FieldsToCheck[j])));
    assert forall j :: 0 <= j < |results| ==>
             results[j] == MockFieldResult(FieldsToCheck[j], draw(regulation, FieldsToCheck[j]));
    results
  }

  /** The check recorded for one field result of one regulation. */
  function DqCheckFor(regulation: string, result: FieldResult, now: Time): (r: DataQualityCheck)
    ensures r.regulationName == regulation && r.fieldName == result.fieldName
    ensures r.status == Passed <==> result.status == "PASSED"
    ensures r.status == Passed || r.status == Failed
    ensures r.dqScore == result.score && r.issues == result.issues
    ensures r.completedAt == Some(now)
  {
    DataQualityCheck(
      regulationName := regulation,
      fieldName := result.fieldName,
      status := if result.status == "PASSED" then Passed else Failed,
      dqScore := result.score,
      issues := result.issues,
      createdAt := now,
      completedAt := Some(now))
  }

  /** The checks for the field results of one regulation, in the order of the results. */
  function FieldChecks(regulation: string, results: seq<FieldResult>, now: Time): seq<DataQualityCheck>
  {
    seq(|results|, j requires 0 <= j < |results| => DqCheckFor(regulation, results[j], now))
  }

  /** The checks for all regulations: each regulation's field checks, regulations in list order. */
  function DqChecks(
    clientId: string, regulations: seq<string>,
    assess: (string, string) -> seq<FieldResult>, now: Time): seq<DataQualityCheck>
  {
    if regulations == [] then []
    else
      var last := regulations[|regulations| - 1];
      DqChecks(clientId, regulations[..|regulations| - 1], assess, now) + FieldChecks(last, assess(clientId, last), now)
  }

  /** Every data-quality check is passed or failed, and completed. */
  lemma {:induction false} DqChecksSettled(
    clientId: string, regulations: seq<string>,
    assess: (string, string) -> seq<FieldResult>, now: Time)
    ensures forall c :: c in DqChecks(clientId, regulations, assess, now) ==>
              (c.status == Passed || c.status == Failed) && c.completedAt == Some(now)
  {
    if regulations != [] {
      DqChecksSettled(clientId, regulations[..|regulations| - 1], assess, now);
    }
  }

  /** When the service reports `k` fields for every regulation, there are `k` checks per regulation. */
  lemma {:induction false} DqChecksLength(
    clientId: string, regulations: seq<string>,
    assess: (string, string) -> seq<FieldResult>, now: Time, k: nat)
    requires forall i :: 0 <= i < |regulations| ==> |assess(clientId, regulations[i])| == k
    ensures |DqChecks(clientId, regulations, assess, now)| == |regulations| * k
  {
    if regulations != [] {
      var n := |regulations|;
      DqChecksLength(clientId, regulations[..n - 1], assess, now, k);
      assert (n - 1) * k + k == n * k;
    }
  }

  /** The check of the `j`-th field of the `i`-th regulation sits at index `i * k + j`. */
  lemma {:induction false} DqChecksAt(
    clientId: string, regulations: seq<string>,
    assess: (string, string) -> seq<FieldResult>, now: Time, k: nat, i: nat, j: nat)
    requires forall i :: 0 <= i < |regulations| ==> |assess(clientId, regulations[i])| == k
    requires i < |regulations| && j < k
    ensures i * k + j < |DqChecks(clientId, regulations, assess, now)|
    ensures DqChecks(clientId, regulations, assess, now)[i * k + j] ==
              DqCheckFor(regulations[i], assess(clientId, regulations[i])[j], now)
  {
    var n := |regulations|;
    var init := regulations[..n - 1];
    var last := regulations[n - 1];
    DqChecksLength(clientId, init, assess, now, k);
    var prefix := DqChecks(clientId, init, assess, now);
    assert |prefix| == (n - 1) * k;
    if i < n - 1 {
      DqChecksAt(clientId, init, assess, now, k, i, j);
      assert i * k + j < |prefix|;
    } else {
      assert i * k + j == |prefix| + j;
    }
  }

  /**
   * With the stand-in service there are eight checks per regulation, one per
   * monitored field in catalog order: the check at `i * 8 + j` belongs to the
   * `i`-th regulation and the `j`-th field; it is passed exactly when that
   * field scored at least 0.8, a passed check carries no issues and a failed
   * one at most two.
   */
  lemma MockDqCheckAt(
    clientId: string, regulations: seq<string>, draw: (string, string) -> FieldDraw, now: Time, i: nat, j: nat)
    requires i < |regulations| && j < |FieldsToCheck|
    ensures var checks := DqChecks(clientId, regulations, (c, r) => MockDqFieldResults(c, r, draw), now);
      && |checks| == |regulations| * 8
      && i * 8 + j < |checks|
      && checks[i * 8 + j].regulationName == regulations[i]
      && checks[i * 8 + j].fieldName == FieldsToCheck[j]
      && checks[i * 8 + j].dqScore == draw(regulations[i], FieldsToCheck[j]).score
      && (checks[i * 8 + j].status == Passed <==> draw(regulations[i], FieldsToCheck[j]).score >= 0.8)
      && (checks[i * 8 + j].status == Passed ==> checks[i * 8 + j].issues == [])
      && |checks[i * 8 + j].issues| <= 2
  {
    var assess := (c, r) => MockDqFieldResults(c, r, draw);
    assert forall r :: |MockDqFieldResults(clientId, r, draw)| == 8;
    assert MockDqFieldResults(clientId, regulations[i], draw)[j] ==
           MockFieldResult(FieldsToCheck[j], draw(regulations[i], FieldsToCheck[j]));
    DqChecksLength(clientId, regulations, assess, now, 8);
    DqChecksAt(clientId, regulations, assess, now, 8, i, j);
  }

  /** Queries the data-quality service per regulation and records one check per reported field. */
  method ProcessDqChecks(
    clientId: string, regulations: seq<string>,
    assess: (string, string) -> seq<FieldResult>, now: Time)
    returns (checks: seq<DataQualityCheck>)
    ensures checks == DqChecks(clientId, regulations, assess, now)
  {
    checks := [];
    for i := 0 to |regulations|
      invariant checks == DqChecks(clientId, regulations[..i], assess, now)
    {
      var regulation := regulations[i];
      var fieldResults := assess(clientId, regulation);
      for j := 0 to |fieldResults|
        invariant checks == DqChecks(clientId, regulations[..i], assess, now) + FieldChecks(regulation, fieldResults[..j], now)
      {
        checks := checks + [DqCheckFor(regulation, fieldResults[j], now)];
      }
      assert fieldResults[..|fieldResults|] == fieldResults;
      assert regulations[..i + 1][..i] == regulations[..i];
    }
    assert regulations[..|regulations|] == regulations;
  }
}
