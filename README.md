# Regulatory classification engine — Dafny model

This project models the regulatory classification engine of a client-onboarding
service for financial-services firms. Given a client record and the list of
regulations that apply to it, the engine builds three kinds of check record:

- **High-level eligibility checks.** There is one per regulation. Each evaluates four
  named criteria: an AUM threshold for AIFMD and UCITS, a supported jurisdiction,
  an eligible entity type, and the keyword "investment" in the business type. A
  check is passed exactly when all four criteria hold.
- **Document checks.** There is one per regulation. The check fetches a document,
  has it analysed, and maps the analysis verdict to an AI status, a manual-review
  sub-status and a completion time.
- **Data-quality checks.** There is one per (regulation, reported field). A field
  passes exactly when its score is at least 0.8.

The engine then aggregates the three lists into one classification. The
classification carries a progress percentage, an overall status in which hard
failures take precedence over manual review, and a completion time. The engine
stores it in a store keyed by classification id. The project also models the
dashboard's accumulation of per-stage counts into totals.

Modules, one file each:

- `Checks` (`checks.dfy`): the status and entity enumerations and the records.
- `Text` (`text.dfy`): ASCII lower-casing and substring search.
- `HighLevel` (`high_level.dfy`): the eligibility checker.
- `Documents` (`documents.dfy`): the document validator.
- `DataQuality` (`data_quality.dfy`): the data-quality checker and the field rule of
  the stand-in data-quality service.
- `Aggregation` (`aggregation.dfy`): progress, overall status, the classification
  record, and lemmas about the classification of a client.
- `Store` (`store.dfy`): the classification store, a class with a map field, and the
  trigger that classifies and stores.
- `Dashboard` (`dashboard.dfy`): stage breakdown and totals.

The list-building loops of the Python service (app.py) are methods with loop invariants. Each
method is proved equal to a specification function (`HighLevelChecks`,
`DocumentChecks`, `DqChecks`). The properties are proved about those functions.

What app.py takes from randomness, the clock or other systems is an input here:

- the applicable regulations (a random sample in app.py);
- the document system and the document analysis, as the functions `fetch` and
  `analyze`;
- the data-quality service, as the function `assess`. For its stand-in, the model
  takes each field's score and the number of issues it keeps as a `FieldDraw`;
- the classification id (a random UUID in app.py);
- one clock reading `now` per call;
- the dashboard's per-stage counts, given per stage key, and its eligible-to-trade
  figure.

The model follows app.py's code. app.py stores the percentage
`completed / total * 100` as the progress, or 0 when there are no checks
(app.py:417). The regulations come from the caller; app.py has no
rule-based classifier that would choose them.

## Model

| member | source | states |
|---|---|---|
| `Text.LowerChar` | app.py:319 | the result is never an ASCII capital; non-capitals are unchanged; a capital maps to the lower-case letter at the same alphabet position |
| `Text.ToLower` | app.py:319 | lower-casing keeps the length and lower-cases every character in place |
| `Text.ToLowerIdempotent` | app.py:319 | lower-casing twice is the same as lower-casing once |
| `Text.Contains` | app.py:319 | definition of the substring test `in`; see `Text.ContainsIffOccurs` |
| `Text.ContainsIffOccurs` | app.py:319 | the substring test holds exactly when the pattern occurs at some index of the text |
| `HighLevel.EvaluateCriteria` | app.py:315-320 | definition of the four criteria; see the lemma rows below |
| `HighLevel.AumCriterionScope` | app.py:316 | for AIFMD and UCITS the AUM criterion holds iff AUM ≥ 100,000,000; for every other regulation it holds |
| `HighLevel.OtherCriteriaIgnoreRegulation` | app.py:317-319 | the jurisdiction, entity-type and business-type criteria are the same for every regulation |
| `HighLevel.EntityTypeEligibility` | app.py:318 | the entity-type criterion holds exactly for hedge funds, investment advisors and banks |
| `HighLevel.BusinessTypeCriterion` | app.py:319 | the business-type criterion holds iff "investment" occurs in the lower-cased business type, so it ignores ASCII case |
| `HighLevel.HighLevelCheckFor` | app.py:312-334 | the check names its regulation and records the criteria; it is PASSED iff all four criteria hold, else FAILED; it is always completed |
| `HighLevel.HighLevelChecks` | app.py:312-335 | specification of the loop: one check per regulation, in list order; see `HighLevel.GenerateHighLevelChecks` |
| `HighLevel.GenerateHighLevelChecks` | app.py:308-337 | one check per regulation, in input order, each named after its regulation; PASSED iff all criteria hold, else FAILED; completion time always set |
| `Documents.DocumentCheckFor` | app.py:343-366 | compliant ⇒ AI PASSED, manual PASSED, completed; non-compliant ⇒ AI MANUAL_REVIEW, manual PENDING, not completed; manual notes empty; the statuses stay consistent |
| `Documents.DocumentChecks` | app.py:343-367 | specification of the loop: one check per regulation, in list order; see `Documents.ProcessDocumentChecks` |
| `Documents.ProcessDocumentChecks` | app.py:339-369 | one check per regulation, in input order; AI status PASSED iff the analysis found the document compliant; statuses consistent; notes empty |
| `DataQuality.Take` | app.py:284 | the slice `issues[:n]`: a prefix of the list, of length n when the list has n elements or more, else the whole list |
| `DataQuality.MockFieldResult` | app.py:270-285 | field status "PASSED" iff score ≥ 0.8, else "FAILED"; a passing field has no issues; a failing one keeps a prefix of at most two of the three issue messages (the draw is 0 to 2) |
| `DataQuality.MockDqFieldResults` | app.py:259-285 | the stand-in reports one result per monitored field, in catalog order; a field is "PASSED" iff it scored ≥ 0.8; a field keeps at most two issues |
| `DataQuality.DqCheckFor` | app.py:379-388 | the check carries the regulation, field, score and issues; it is PASSED iff the field status is "PASSED", else FAILED; always completed |
| `DataQuality.DqChecks` | app.py:375-389 | specification of the nested loop; see `DataQuality.DqChecksLength`, `DataQuality.DqChecksAt` and `DataQuality.DqChecksSettled` |
| `DataQuality.ProcessDqChecks` | app.py:371-391 | the nested loop builds the regulations' field checks, regulations in input order, each regulation's fields in result order |
| `DataQuality.DqChecksSettled` | app.py:383-387 | every data-quality check is PASSED or FAILED and completed |
| `DataQuality.DqChecksLength` | app.py:375-389 | with k reported fields per regulation there are k checks per regulation |
| `DataQuality.DqChecksAt` | app.py:375-389 | with k fields per regulation, the check at i·k + j is that of field j of regulation i |
| `DataQuality.MockDqCheckAt` | app.py:260-285 | with the stand-in service: eight checks per regulation, fields in catalog order; check (i, j) is PASSED iff that field scored ≥ 0.8; passed checks have no issues, failed ones at most two |
| `Aggregation.Count` | app.py:409-428 | the `sum([1 for … if …])` counts: never more than the list length |
| `Aggregation.CountPositiveIff` | app.py:420-432 | a counted sum is positive iff some element satisfies the condition |
| `Aggregation.CountFullIff` | app.py:409-415 | a counted sum equals the list length iff every element satisfies the condition |
| `Aggregation.CompletedChecks` | app.py:408-415 | completed checks never exceed the total number of checks |
| `Aggregation.Progress` | app.py:417 | definition of the progress percentage; see `Aggregation.ProgressRange` and `Aggregation.ProgressMonotone` |
| `Aggregation.ProgressRange` | app.py:417 | progress lies in [0, 100] and is 100 iff there are checks and all of them are completed |
| `Aggregation.ProgressMonotone` | app.py:417 | for a fixed total, more completed checks never means less progress |
| `Aggregation.OverallStatus` | app.py:420-435 | definition of the status precedence; see `Aggregation.OverallStatusPrecedence` |
| `Aggregation.OverallStatusPrecedence` | app.py:420-435 | FAILED iff some high-level or DQ check failed, whatever the documents say; else MANUAL_REVIEW iff some document awaits review; else PASSED |
| `Aggregation.Aggregate` | app.py:407-447 | the classification keeps the three lists and the ids; status is PASSED, FAILED or MANUAL_REVIEW; progress is in [0, 100]; completion time set iff status is PASSED or FAILED |
| `Aggregation.ProgressFullIffAllTerminal` | app.py:408-417 | progress is 100 iff there is at least one check and every check is PASSED or FAILED (documents by AI status) |
| `Aggregation.ProgressMonotoneInDocuments` | app.py:408-417 | moving document checks into PASSED/FAILED never lowers progress |
| `Aggregation.Classify` | app.py:402-447 | the classification of a client: the three check lists aggregated; see `Aggregation.ClassifiedProgressFullIff` and `Aggregation.ClassifiedStatus` |
| `Aggregation.ClassifiedProgressFullIff` | app.py:403-417 | for a non-empty regulation list, progress is 100 iff every regulation's document was found compliant |
| `Aggregation.FailedCheckHasFailedField` | app.py:383 | a FAILED data-quality check comes from a reported field whose status is not "PASSED" |
| `Aggregation.FieldCheckInDqChecks` | app.py:375-389 | every field result the service reports for a regulation yields its check in the data-quality list |
| `Aggregation.DqFailedIff` | app.py:420-424 | some DQ check is FAILED iff some reported field of some regulation is not "PASSED" |
| `Aggregation.ClassifiedStatus` | app.py:403-435 | status FAILED iff some regulation misses a criterion or some field failed; else MANUAL_REVIEW iff some document was non-compliant; else PASSED |
| `Store.RegulatoryStore.constructor` | app.py:97 | the store starts empty |
| `Store.RegulatoryStore.TriggerClassification` | app.py:393-453 | the stored classification is the aggregate of the three processors' output; it is stored under its own id; no other entry changes |
| `Dashboard.SummaryOf` | app.py:132-138 | definition of one stage's summary: its name, its drawn counts and their total |
| `Dashboard.ColumnSumOfDrawn` | app.py:132-142 | summing a column over the stored stage summaries equals summing the drawn counts |
| `Dashboard.StageKeysDistinct` | app.py:112-117 | the four stage keys are pairwise distinct |
| `Dashboard.SummariseStages` | app.py:121-142 | each stage is stored under its key with its counts; each stage total is in-progress + pending + completed; each overall total is the sum of that count over the stages |
| `Dashboard.StageBreakdown` | app.py:108-176 | the same facts for the four fixed stages, with the eligible-to-trade figure passed through |

## Left out

- HTTP routes, page rendering, JSON handling and request-field validation are not modelled (app.py:181-203, 459-548). They are transport plumbing.
- Randomness and simulated latency in the stand-in collaborators are inputs here: the regulation sample, the document and analysis results, the field scores and issue counts, and the dashboard counts. The sleeps are dropped.
- The document stand-ins are not modelled: their confidence draw, the `confidence > 0.8` rule, the validation points, the issue list and the document content. Only the fields that the engine copies are modelled.
- Check ids (random UUIDs) are not modelled. The classification id is an input.
- Failure of a collaborator is not modelled. `fetch`, `analyze` and `assess` are total functions, so `Store.RegulatoryStore.TriggerClassification` always stores a classification. In app.py, an exception raised by the document, analysis or data-quality service leaves `trigger_regulatory_classification` before the write at app.py:450, so nothing is stored and the route answers with status 500 (app.py:497-498).
- `datetime.now()` is not modelled. One clock reading per call stands in for it, so all records of one call share a timestamp.
- The DQ stand-in's average score, overall status and recommendations (app.py:286-301) are not modelled. The engine never reads them.
- Serialisation to JSON and ISO dates, the `print` logging, and the write into `clients_db` in the route handler are not modelled.
- The dashboard's action items (fixed texts with due dates relative to the clock) are not modelled.
- `Text.LowerChar` lower-cases ASCII capitals only. Python's `str.lower` also folds other Unicode capitals, and for U+0130 it lengthens the string.
- `Text.ToLower` is built from `Text.LowerChar`, so it too folds ASCII capitals only and always keeps the length. `HighLevel.BusinessTypeCriterion` is therefore stated for this ASCII fold. The only non-ASCII characters whose `str.lower` contains ASCII letters are U+0130 (to "i" plus a combining dot) and U+212A (to "k"). Neither can complete "investment", so the test at app.py:319 decides the same way under both folds. The model does not prove this fact about the Unicode tables.
- Scores, AUM, confidence and progress are exact reals, not IEEE doubles. `Aggregation.ProgressRange` therefore ignores rounding: with doubles, a fraction just below 1 could round to 100.
- `Aggregation.ClassifiedProgressFullIff` requires a non-empty regulation list. With no regulations, app.py reports progress 0, status PASSED and a completion time. Its sampler always picks 5 to 10 regulations (app.py:397).
- `Dashboard.SummariseStages` requires distinct stage keys. The four keys of app.py:112-117 are distinct (`Dashboard.StageKeysDistinct`).
- Manual editing of document notes, a multi-step onboarding workflow and a rule-based regulation classifier are not modelled. app.py has no code for any of them.
