/**
 * Document validator: for each regulation a document is fetched from the
 * upstream system and analysed; the analysis verdict decides the AI status,
 * the manual-review sub-status and whether the check is completed.
 */
module Documents {
  import opened Checks

  /** What the upstream document system returns for a (client, regulation) pair. */
  datatype FetchedDocument = FetchedDocument(documentId: string, documentType: string, content: string)

  /** What the document analysis returns for a (content, regulation) pair. */
  datatype DocumentAnalysis = DocumentAnalysis(isCompliant: bool, confidenceScore: real, analysisSummary: string)

  /** The status invariant every document check produced by the validator keeps. */
  predicate ConsistentStatuses(c: DocumentCheck)
  {
    && (c.aiValidationStatus == Passed || c.aiValidationStatus == ManualReview)
    && (c.manualReviewStatus == Pending <==> c.aiValidationStatus == ManualReview)
    && (c.completedAt.Some? <==> c.aiValidationStatus == Passed)
  }

  /** The document check of one regulation. */
  function DocumentCheckFor(
    clientId: string, regulation: string,
    fetch: (string, string) -> FetchedDocument,
    analyze: (string, string) -> DocumentAnalysis,
    now: Time): (r: DocumentCheck)
    ensures r.regulationName == regulation
    ensures r.documentId == fetch(clientId, regulation).documentId
    ensures analyze(fetch(clientId, regulation).content, regulation).isCompliant ==>
              r.aiValidationStatus == Passed && r.manualReviewStatus == Passed && r.completedAt == Some(now)
    ensures !analyze(fetch(clientId, regulation).content, regulation).isCompliant ==>
              r.aiValidationStatus == ManualReview && r.manualReviewStatus == Pending && r.completedAt == None
    ensures r.manualNotes == ""
    ensures ConsistentStatuses(r)
  {
    var doc := fetch(clientId, regulation);
    var llm := analyze(doc.content, regulation);
    var aiStatus := if llm.isCompliant then Passed else ManualReview;
    var manualStatus := if aiStatus == ManualReview then Pending else Passed;
    DocumentCheck(
      regulationName := regulation,
      documentType := doc.documentType,
      documentId := doc.documentId,
      aiValidationStatus := aiStatus,
      manualReviewStatus := manualStatus,
      aiConfidence := llm.confidenceScore,
      aiFeedback := llm.analysisSummary,
      manualNotes := "",
      createdAt := now,
      completedAt := if aiStatus == Passed then Some(now) else None)
  }

  /** The document checks for a list of regulations, one per regulation, in list order. */
  function DocumentChecks(
    clientId: string, regulations: seq<string>,
    fetch: (string, string) -> FetchedDocument,
    analyze: (string, string) -> DocumentAnalysis,
    now: Time): seq<DocumentCheck>
  {
    seq(|regulations|, i requires 0 <= i < |regulations| => DocumentCheckFor(clientId, regulations[i], fetch, analyze, now))
  }

  /** Fetches, analyses and records one document check per regulation. */
  method ProcessDocumentChecks(
    clientId: string, regulations: seq<string>,
    fetch: (string, string) -> FetchedDocument,
    analyze: (string, string) -> DocumentAnalysis,
    now: Time)
    returns (checks: seq<DocumentCheck>)
    ensures checks == DocumentChecks(clientId, regulations, fetch, analyze, now)
    ensures |checks| == |regulations|
    ensures forall i :: 0 <= i < |regulations| ==>
              && checks[i].regulationName == regulations[i]
              && ConsistentStatuses(checks[i])
              && checks[i].manualNotes == ""
              && (checks[i].aiValidationStatus == Passed <==>
                  analyze(fetch(clientId, regulations[i]).content, regulations[i]).isCompliant)
  {
    checks := [];
    for k := 0 to |regulations|
      invariant |checks| == k
      invariant forall j :: 0 <= j < k ==> checks[j] == DocumentCheckFor(clientId, regulations[j], fetch, analyze, now)
    {
      var regulation := regulations[k];
      var docData := fetch(clientId, regulation);
      var llmResult := analyze(docData.content, regulation);
      var aiStatus := if llmResult.isCompliant then Passed else ManualReview;
      var manualStatus := if aiStatus == ManualReview then Pending else Passed;
      var check := DocumentCheck(
        regulationName := regulation,
        documentType := docData.documentType,
        documentId := docData.documentId,
        aiValidationStatus := aiStatus,
        manualReviewStatus := manualStatus,
        aiConfidence := llmResult.confidenceScore,
        aiFeedback := llmResult.analysisSummary,
        manualNotes := "",
        createdAt := now,
        completedAt := if aiStatus == Passed then Some(now) else None);
      checks := checks + [check];
    }
  }
}
