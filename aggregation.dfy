/**
 * Classification aggregator: combines the three check lists into one
 * classification with a progress percentage, an overall status and a
 * completion time.
 */
module Aggregation {
  import opened Checks
  import HighLevel
  import Documents
  import DataQuality

  /** Number of elements of `s` that satisfy `p`. */
  function Count<T>(s: seq<T>, p: T -> bool): (n: nat)
    ensures n <= |s|
  {
    if s == [] then 0 else Count(s[..|s| - 1], p) + (if p(s[|s| - 1]) then 1 else 0)
  }

  lemma {:induction false} CountPositiveIff<T>(s: seq<T>, p: T -> bool)
    ensures Count(s, p) > 0 <==> exists i :: 0 <= i < |s| && p(s[i])
  {
    if s != [] {
      var init := s[..|s| - 1];
      CountPositiveIff(init, p);
      if exists i :: 0 <= i < |init| && p(init[i]) {
        var i :| 0 <= i < |init| && p(init[i]);
        assert s[i] == init[i];
      }
      if exists i :: 0 <= i < |s| && p(s[i]) {
        var i :| 0 <= i < |s| && p(s[i]);
        if i < |init| {
          assert init[i] == s[i];
        }
      }
    }
  }

  lemma {:induction false} CountFullIff<T>(s: seq<T>, p: T -> bool)
    ensures Count(s, p) == |s| <==> forall i :: 0 <= i < |s| ==> p(s[i])
  {
    if s != [] {
      var init := s[..|s| - 1];
      CountFullIff(init, p);
      if forall i :: 0 <= i < |s| ==> p(s[i]) {
        forall i | 0 <= i < |init| ensures p(init[i]) {
          assert init[i] == s[i];
        }
      }
    }
  }

  /** Where `s2` satisfies `p` at every position `s1` does, `s2` has at least as many such elements. */
  lemma {:induction false} CountPointwiseMonotone<T>(s1: seq<T>, s2: seq<T>, p: T -> bool)
    requires |s1| == |s2|
    requires forall i :: 0 <= i < |s1| && p(s1[i]) ==> p(s2[i])
    ensures Count(s1, p) <= Count(s2, p)
  {
    if s1 != [] {
      var n := |s1|;
      var init1, init2 := s1[..n - 1], s2[..n - 1];
      forall i | 0 <= i < |init1| && p(init1[i]) ensures p(init2[i]) {
        assert init1[i] == s1[i] && init2[i] == s2[i];
      }
      CountPointwiseMonotone(init1, init2, p);
    }
  }

  predicate HighLevelCompleted(c: HighLevelCheck) { c.status.IsTerminal() }
  predicate DocumentCompleted(c: DocumentCheck) { c.aiValidationStatus.IsTerminal() }
  predicate DqCompleted(c: DataQualityCheck) { c.status.IsTerminal() }
  predicate HighLevelFailed(c: HighLevelCheck) { c.status == Failed }
  predicate DqFailed(c: DataQualityCheck) { c.status == Failed }
  predicate NeedsManualReview(c: DocumentCheck) { c.aiValidationStatus == ManualReview }

  function TotalChecks(hl: seq<HighLevelCheck>, docs: seq<DocumentCheck>, dq: seq<DataQualityCheck>): nat
  {
    |hl| + |docs| + |dq|
  }

  /** Checks in a terminal status; a document check counts by its AI validation status. */
  function CompletedChecks(hl: seq<HighLevelCheck>, docs: seq<DocumentCheck>, dq: seq<DataQualityCheck>): (n: nat)
    ensures n <= TotalChecks(hl, docs, dq)
  {
    Count(hl, HighLevelCompleted) + Count(docs, DocumentCompleted) + Count(dq, DqCompleted)
  }

  /** Percentage of completed checks, 0 when there are no checks. */
  function Progress(completed: nat, total: nat): real
  {
    if total > 0 then (completed as real / total as real) * 100.0 else 0.0
  }

  /** The completed fraction lies in [0, 1] and is 1 exactly when everything is completed. */
  lemma FractionBounds(c: real, t: real)
    requires 0.0 <= c <= t && 0.0 < t
    ensures 0.0 <= c / t <= 1.0
    ensures c / t == 1.0 <==> c == t
  {
  }

  lemma ProgressRange(completed: nat, total: nat)
    requires completed <= total
    ensures 0.0 <= Progress(completed, total) <= 100.0
    ensures Progress(completed, total) == 100.0 <==> 0 < total && completed == total
  {
    if total > 0 {
      FractionBounds(completed as real, total as real);
    }
  }

  lemma ProgressMonotone(c1: nat, c2: nat, total: nat)
    requires c1 <= c2 <= total
    ensures Progress(c1, total) <= Progress(c2, total)
  {
    if total > 0 {
      var t := total as real;
      FractionBounds((c2 - c1) as real, t);
      assert c2 as real / t - c1 as real / t == (c2 - c1) as real / t;
    }
  }

  /** Hard failures first, then manual review, then passed. */
  function OverallStatus(hl: seq<HighLevelCheck>, docs: seq<DocumentCheck>, dq: seq<DataQualityCheck>): CheckStatus
  {
    var failedChecks := Count(hl, HighLevelFailed) + Count(dq, DqFailed);
    var manualReviewNeeded := Count(docs, NeedsManualReview);
    if failedChecks > 0 then Failed
    else if manualReviewNeeded > 0 then ManualReview
    else Passed
  }

  ghost predicate AnyHardFailure(hl: seq<HighLevelCheck>, dq: seq<DataQualityCheck>)
  {
    (exists i :: 0 <= i < |hl| && hl[i].status == Failed) ||
    (exists i :: 0 <= i < |dq| && dq[i].status == Failed)
  }

  ghost predicate AnyManualReview(docs: seq<DocumentCheck>)
  {
    exists i :: 0 <= i < |docs| && docs[i].aiValidationStatus == ManualReview
  }

  /**
   * A failed high-level or data-quality check makes the status failed,
   * whatever the document checks say; otherwise a document check awaiting
   * manual review makes it manual review; otherwise it is passed.
   */
  lemma OverallStatusPrecedence(hl: seq<HighLevelCheck>, docs: seq<DocumentCheck>, dq: seq<DataQualityCheck>)
    ensures OverallStatus(hl, docs, dq) == Failed <==> AnyHardFailure(hl, dq)
    ensures OverallStatus(hl, docs, dq) == ManualReview <==> !AnyHardFailure(hl, dq) && AnyManualReview(docs)
    ensures OverallStatus(hl, docs, dq) == Passed <==> !AnyHardFailure(hl, dq) && !AnyManualReview(docs)
  {
    CountPositiveIff(hl, HighLevelFailed);
    CountPositiveIff(dq, DqFailed);
    CountPositiveIff(docs, NeedsManualReview);
  }

  /** The classification record built from the three check lists. */
  function Aggregate(
    clientId: string, classificationId: string,
    hl: seq<HighLevelCheck>, docs: seq<DocumentCheck>, dq: seq<DataQualityCheck>,
    now: Time): (r: RegulatoryClassification)
    ensures r.clientId == clientId && r.classificationId == classificationId
    ensures r.highLevelChecks == hl && r.documentChecks == docs && r.dqChecks == dq
    ensures r.status == Passed || r.status == Failed || r.status == ManualReview
    ensures 0.0 <= r.overallProgress <= 100.0
    ensures r.completedAt.Some? <==> r.status == Passed || r.status == Failed
  {
    var total := TotalChecks(hl, docs, dq);
    var completed := CompletedChecks(hl, docs, dq);
    ProgressRange(completed, total);
    var status := OverallStatus(hl, docs, dq);
    RegulatoryClassification(
      clientId := clientId,
      classificationId := classificationId,
      status := status,
      highLevelChecks := hl,
      documentChecks := docs,
      dqChecks := dq,
      overallProgress := Progress(completed, total),
      createdAt := now,
      completedAt := if status == Passed || status == Failed then Some(now) else None)
  }

  /** Progress is 100 exactly when there is at least one check and every check is in a terminal status. */
  lemma ProgressFullIffAllTerminal(
    clientId: string, classificationId: string,
    hl: seq<HighLevelCheck>, docs: seq<DocumentCheck>, dq: seq<DataQualityCheck>, now: Time)
    ensures Aggregate(clientId, classificationId, hl, docs, dq, now).overallProgress == 100.0 <==>
              && TotalChecks(hl, docs, dq) > 0
              && (forall i :: 0 <= i < |hl| ==> hl[i].status.IsTerminal())
              && (forall i :: 0 <= i < |docs| ==> docs[i].aiValidationStatus.IsTerminal())
              && (forall i :: 0 <= i < |dq| ==> dq[i].status.IsTerminal())
  {
    ProgressRange(CompletedChecks(hl, docs, dq), TotalChecks(hl, docs, dq));
    CountFullIff(hl, HighLevelCompleted);
    CountFullIff(docs, DocumentCompleted);
    CountFullIff(dq, DqCompleted);
  }

  /**
   * Moving document checks into a terminal status (a review settling them)
   * never lowers progress.
   */
  lemma ProgressMonotoneInDocuments(
    clientId: string, classificationId: string,
    hl: seq<HighLevelCheck>, docs1: seq<DocumentCheck>, docs2: seq<DocumentCheck>, dq: seq<DataQualityCheck>, now: Time)
    requires |docs1| == |docs2|
    requires forall i :: 0 <= i < |docs1| && docs1[i].aiValidationStatus.IsTerminal() ==> docs2[i].aiValidationStatus.IsTerminal()
    ensures Aggregate(clientId, classificationId, hl, docs1, dq, now).overallProgress <=
            Aggregate(clientId, classificationId, hl, docs2, dq, now).overallProgress
  {
    CountPointwiseMonotone(docs1, docs2, DocumentCompleted);
    ProgressMonotone(CompletedChecks(hl, docs1, dq), CompletedChecks(hl, docs2, dq), TotalChecks(hl, docs1, dq));
  }

  /** The classification of `client` for the applicable regulations, with collaborators' answers as inputs. */
  function Classify(
    client: ClientData, classificationId: string, applicable: seq<string>,
    fetch: (string, string) -> Documents.FetchedDocument,
    analyze: (string, string) -> Documents.DocumentAnalysis,
    assess: (string, string) -> seq<DataQuality.FieldResult>,
    now: Time): RegulatoryClassification
  {
    Aggregate(
      client.clientId, classificationId,
      HighLevel.HighLevelChecks(client, applicable, now),
      Documents.DocumentChecks(client.clientId, applicable, fetch, analyze, now),
      DataQuality.DqChecks(client.clientId, applicable, assess, now),
      now)
  }

  /** Whether the analysis of `regulation`'s document found it compliant. */
  predicate Compliant(
    clientId: string, regulation: string,
    fetch: (string, string) -> Documents.FetchedDocument,
    analyze: (string, string) -> Documents.DocumentAnalysis)
  {
    analyze(fetch(clientId, regulation).content, regulation).isCompliant
  }

  /**
   * For a non-empty regulation list, progress reaches 100 exactly when every
   * regulation's document was found compliant: high-level and data-quality
   * checks are always completed, so only documents awaiting review hold it back.
   */
  lemma ClassifiedProgressFullIff(
    client: ClientData, classificationId: string, applicable: seq<string>,
    fetch: (string, string) -> Documents.FetchedDocument,
    analyze: (string, string) -> Documents.DocumentAnalysis,
    assess: (string, string) -> seq<DataQuality.FieldResult>,
    now: Time)
    requires applicable != []
    ensures Classify(client, classificationId, applicable, fetch, analyze, assess, now).overallProgress == 100.0 <==>
              forall i :: 0 <= i < |applicable| ==> Compliant(client.clientId, applicable[i], fetch, analyze)
  {
    var hl := HighLevel.HighLevelChecks(client, applicable, now);
    var docs := Documents.DocumentChecks(client.clientId, applicable, fetch, analyze, now);
    var dq := DataQuality.DqChecks(client.clientId, applicable, assess, now);
    DataQuality.DqChecksSettled(client.clientId, applicable, assess, now);
    forall i | 0 <= i < |dq| ensures dq[i].status.IsTerminal() {
      assert dq[i] in dq;
    }
    assert forall i :: 0 <= i < |hl| ==> hl[i].status.IsTerminal();
    forall i | 0 <= i < |docs|
      ensures docs[i].aiValidationStatus.IsTerminal() <==> Compliant(client.clientId, applicable[i], fetch, analyze)
    {
    }
    ProgressFullIffAllTerminal(client.clientId, classificationId, hl, docs, dq, now);
  }

  /** Some field result reported for some applicable regulation is not "PASSED". */
  ghost predicate AnyFieldFailed(clientId: string, regulations: seq<string>, assess: (string, string) -> seq<DataQuality.FieldResult>)
  {
    exists i, j :: 0 <= i < |regulations| && 0 <= j < |assess(clientId, regulations[i])| &&
      assess(clientId, regulations[i])[j].status != "PASSED"
  }

  /** A failed data-quality check comes from a field result that is not "PASSED". */
  lemma {:induction false} FailedCheckHasFailedField(
    clientId: string, regulations: seq<string>,
    assess: (string, string) -> seq<DataQuality.FieldResult>, now: Time, c: DataQualityCheck)
    requires c in DataQuality.DqChecks(clientId, regulations, assess, now) && c.status == Failed
    ensures AnyFieldFailed(clientId, regulations, assess)
  {
    var n := |regulations|;
    var init := regulations[..n - 1];
    var last := regulations[n - 1];
    var tail := DataQuality.FieldChecks(last, assess(clientId, last), now);
    if c in DataQuality.DqChecks(clientId, init, assess, now) {
      FailedCheckHasFailedField(clientId, init, assess, now, c);
      var i, j :| 0 <= i < |init| && 0 <= j < |assess(clientId, init[i])| &&
        assess(clientId, init[i])[j].status != "PASSED";
      assert init[i] == regulations[i];
    } else {
      assert c in tail;
      var j :| 0 <= j < |tail| && tail[j] == c;
      assert assess(clientId, regulations[n - 1])[j].status != "PASSED";
    }
  }

  /** Every field result the service reports for a regulation yields its check in the data-quality list. */
  lemma {:induction false} FieldCheckInDqChecks(
    clientId: string, regulations: seq<string>,
    assess: (string, string) -> seq<DataQuality.FieldResult>, now: Time, i: nat, j: nat)
    requires i < |regulations| && j < |assess(clientId, regulations[i])|
    ensures DataQuality.DqCheckFor(regulations[i], assess(clientId, regulations[i])[j], now) in
              DataQuality.DqChecks(clientId, regulations, assess, now)
  {
    var n := |regulations|;
    var init := regulations[..n - 1];
    var last := regulations[n - 1];
    var tail := DataQuality.FieldChecks(last, assess(clientId, last), now);
    if i < n - 1 {
      FieldCheckInDqChecks(clientId, init, assess, now, i, j);
      assert init[i] == regulations[i];
    } else {
      assert tail[j] in tail;
    }
  }

  lemma DqFailedIff(
    clientId: string, regulations: seq<string>,
    assess: (string, string) -> seq<DataQuality.FieldResult>, now: Time)
    ensures (exists p :: 0 <= p < |DataQuality.DqChecks(clientId, regulations, assess, now)| &&
               DataQuality.DqChecks(clientId, regulations, assess, now)[p].status == Failed)
            <==> AnyFieldFailed(clientId, regulations, assess)
  {
    var all := DataQuality.DqChecks(clientId, regulations, assess, now);
    if exists p :: 0 <= p < |all| && all[p].status == Failed {
      var p :| 0 <= p < |all| && all[p].status == Failed;
      FailedCheckHasFailedField(clientId, regulations, assess, now, all[p]);
    }
    if AnyFieldFailed(clientId, regulations, assess) {
      var i, j :| 0 <= i < |regulations| && 0 <= j < |assess(clientId, regulations[i])| &&
        assess(clientId, regulations[i])[j].status != "PASSED";
      FieldCheckInDqChecks(clientId, regulations, assess, now, i, j);
      var c := DataQuality.DqCheckFor(regulations[i], assess(clientId, regulations[i])[j], now);
      var p :| 0 <= p < |all| && all[p] == c;
    }
  }

  /**
   * The overall status of a classification in terms of its inputs: failed
   * exactly when some regulation misses a high-level criterion or some
   * reported field is not passed, whatever the documents say; otherwise
   * manual review exactly when some document was not found compliant;
   * otherwise passed.
   */
  lemma ClassifiedStatus(
    client: ClientData, classificationId: string, applicable: seq<string>,
    fetch: (string, string) -> Documents.FetchedDocument,
    analyze: (string, string) -> Documents.DocumentAnalysis,
    assess: (string, string) -> seq<DataQuality.FieldResult>,
    now: Time)
    ensures var r := Classify(client, classificationId, applicable, fetch, analyze, assess, now);
      var hardFailure :=
        (exists i :: 0 <= i < |applicable| && !HighLevel.EvaluateCriteria(client, applicable[i]).AllMet()) ||
        AnyFieldFailed(client.clientId, applicable, assess);
      var review := exists i :: 0 <= i < |applicable| && !Compliant(client.clientId, applicable[i], fetch, analyze);
      && (r.status == Failed <==> hardFailure)
      && (r.status == ManualReview <==> !hardFailure && review)
      && (r.status == Passed <==> !hardFailure && !review)
  {
    var hl := HighLevel.HighLevelChecks(client, applicable, now);
    var docs := Documents.DocumentChecks(client.clientId, applicable, fetch, analyze, now);
    var dq := DataQuality.DqChecks(client.clientId, applicable, assess, now);
    OverallStatusPrecedence(hl, docs, dq);
    DqFailedIff(client.clientId, applicable, assess, now);
    forall i | 0 <= i < |hl|
      ensures hl[i].status == Failed <==> !HighLevel.EvaluateCriteria(client, applicable[i]).AllMet()
    {
    }
    forall i | 0 <= i < |docs|
      ensures docs[i].aiValidationStatus == ManualReview <==> !Compliant(client.clientId, applicable[i], fetch, analyze)
    {
    }
    assert (exists i :: 0 <= i < |hl| && hl[i].status == Failed) <==>
           (exists i :: 0 <= i < |applicable| && !HighLevel.EvaluateCriteria(client, applicable[i]).AllMet());
    assert AnyManualReview(docs) <==>
           (exists i :: 0 <= i < |applicable| && !Compliant(client.clientId, applicable[i], fetch, analyze));
  }
}
