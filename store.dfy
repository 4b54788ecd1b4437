/**
 * The process-wide store of classifications, keyed by classification id, and
 * the trigger that runs the three check processors, aggregates their output
 * and stores the result.
 */
module Store {
  import opened Checks
  import HighLevel
  import Documents
  import DataQuality
  import Aggregation

  class RegulatoryStore {
    var classifications: map<string, RegulatoryClassification>

    constructor ()
      ensures classifications == map[]
    {
      classifications := map[];
    }

    /**
     * Classifies `client` against the applicable regulations (chosen by the
     * caller) and stores the classification under its own id. No other entry
     * of the store changes.
     */
    method TriggerClassification(
      client: ClientData, classificationId: string, applicable: seq<string>,
      fetch: (string, string) -> Documents.FetchedDocument,
      analyze: (string, string) -> Documents.DocumentAnalysis,
      assess: (string, string) -> seq<DataQuality.FieldResult>,
      now: Time)
      returns (c: RegulatoryClassification)
      modifies this
      ensures c == Aggregation.Classify(client, classificationId, applicable, fetch, analyze, assess, now)
      ensures c.classificationId == classificationId && c.clientId == client.clientId
      ensures classifications == old(classifications)[classificationId := c]
      ensures forall id :: id in old(classifications) && id != classificationId ==>
                id in classifications && classifications[id] == old(classifications)[id]
    {
      var highLevelChecks := HighLevel.GenerateHighLevelChecks(client, applicable, now);
      var documentChecks := Documents.ProcessDocumentChecks(client.clientId, applicable, fetch, analyze, now);
      var dqChecks := DataQuality.ProcessDqChecks(client.clientId, applicable, assess, now);
      c := Aggregation.Aggregate(client.clientId, classificationId, highLevelChecks, documentChecks, dqChecks, now);
      classifications := classifications[classificationId := c];
    }
  }
}
