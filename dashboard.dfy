/**
 * Dashboard figures: per-stage counts of onboarding requests and their
 * totals across stages. The per-stage counts are drawn at random in the
 * Python service (app.py); here they are an input, keyed by stage.
 */
module Dashboard {

  datatype Stage = Stage(name: string, key: string)

  const Stages: seq<Stage> := [
    Stage("Regulatory Due Diligence", "regulatory"),
    Stage("Contract Setup", "contracts"),
    Stage("Account Setup", "account_setup"),
    Stage("SSI Setup", "ssi_setup")
  ]

  /** The counts drawn for one stage. */
  datatype StageDraw = StageDraw(inProgress: int, pending: int, completed: int)

  datatype StageSummary = StageSummary(name: string, inProgress: int, pending: int, completed: int, total: int)

  datatype Totals = Totals(inProgress: int, pending: int, completed: int, eligibleToTrade: int)

  datatype Column = InProgressColumn | PendingColumn | CompletedColumn

  function ColumnOf(s: StageSummary, column: Column): int
  {
    match column
    case InProgressColumn => s.inProgress
    case PendingColumn => s.pending
    case CompletedColumn => s.completed
  }

  function SummaryOf(stage: Stage, draw: StageDraw): StageSummary
  {
    StageSummary(stage.name, draw.inProgress, draw.pending, draw.completed,
                 draw.inProgress + draw.pending + draw.completed)
  }

  /** Sum of one column over the summaries stored for the given stages. */
  function ColumnSum(stages: seq<Stage>, data: map<string, StageSummary>, column: Column): int
    requires forall i :: 0 <= i < |stages| ==> stages[i].key in data
  {
    if stages == [] then 0
    else ColumnSum(stages[..|stages| - 1], data, column) + ColumnOf(data[stages[|stages| - 1].key], column)
  }

  /** Sum of one column over the counts drawn for the given stages. */
  function DrawnSum(stages: seq<Stage>, draw: string -> StageDraw, column: Column): int
  {
    if stages == [] then 0
    else
      var last := stages[|stages| - 1];
      DrawnSum(stages[..|stages| - 1], draw, column) + ColumnOf(SummaryOf(last, draw(last.key)), column)
  }

  /** Where every stage's stored summary is the one drawn for it, the two sums agree. */
  lemma {:induction false} ColumnSumOfDrawn(stages: seq<Stage>, data: map<string, StageSummary>, draw: string -> StageDraw, column: Column)
    requires forall i :: 0 <= i < |stages| ==>
               stages[i].key in data && data[stages[i].key] == SummaryOf(stages[i], draw(stages[i].key))
    ensures ColumnSum(stages, data, column) == DrawnSum(stages, draw, column)
  {
    if stages != [] {
      ColumnSumOfDrawn(stages[..|stages| - 1], data, draw, column);
    }
  }

  /** No two stages share a key. */
  predicate DistinctKeys(stages: seq<Stage>)
  {
    forall i, j :: 0 <= i < j < |stages| ==> stages[i].key != stages[j].key
  }

  lemma StageKeysDistinct()
    ensures DistinctKeys(Stages)
  {
  }

  /**
   * Builds the per-stage breakdown and accumulates the totals over `stages`.
   * Every stage appears under its key with its name and drawn counts, its
   * total is the sum of its three counts, and each overall total is the sum
   * of that count over all stages.
   */
  method SummariseStages(stages: seq<Stage>, draw: string -> StageDraw)
    returns (stageData: map<string, StageSummary>, totalInProgress: int, totalPending: int, totalCompleted: int)
    requires DistinctKeys(stages)
    ensures forall k :: k in stageData <==> exists j :: 0 <= j < |stages| && stages[j].key == k
    ensures forall i :: 0 <= i < |stages| ==>
              stages[i].key in stageData && stageData[stages[i].key] == SummaryOf(stages[i], draw(stages[i].key))
    ensures forall k :: k in stageData ==>
              stageData[k].total == stageData[k].inProgress + stageData[k].pending + stageData[k].completed
    ensures totalInProgress == ColumnSum(stages, stageData, InProgressColumn)
    ensures totalPending == ColumnSum(stages, stageData, PendingColumn)
    ensures totalCompleted == ColumnSum(stages, stageData, CompletedColumn)
  {
    stageData := map[];
    totalInProgress, totalPending, totalCompleted := 0, 0, 0;
    for i := 0 to |stages|
      invariant forall k :: k in stageData ==> exists j :: 0 <= j < i && stages[j].key == k
      invariant forall j :: 0 <= j < i ==>
                  stages[j].key in stageData && stageData[stages[j].key] == SummaryOf(stages[j], draw(stages[j].key))
      invariant totalInProgress == DrawnSum(stages[..i], draw, InProgressColumn)
      invariant totalPending == DrawnSum(stages[..i], draw, PendingColumn)
      invariant totalCompleted == DrawnSum(stages[..i], draw, CompletedColumn)
    {
      var stage := stages[i];
      var counts := draw(stage.key);
      stageData := stageData[stage.key := SummaryOf(stage, counts)];
      assert stages[..i + 1][..i] == stages[..i];
      totalInProgress := totalInProgress + counts.inProgress;
      totalPending := totalPending + counts.pending;
      totalCompleted := totalCompleted + counts.completed;
    }
    assert stages[..|stages|] == stages;
    ColumnSumOfDrawn(stages, stageData, draw, InProgressColumn);
    ColumnSumOfDrawn(stages, stageData, draw, PendingColumn);
    ColumnSumOfDrawn(stages, stageData, draw, CompletedColumn);
  }

  /** The dashboard figures for the four onboarding stages. */
  method StageBreakdown(draw: string -> StageDraw, eligibleToTrade: int)
    returns (stageData: map<string, StageSummary>, totals: Totals)
    ensures forall k :: k in stageData <==> exists j :: 0 <= j < |Stages| && Stages[j].key == k
    ensures forall i :: 0 <= i < |Stages| ==> stageData[Stages[i].key] == SummaryOf(Stages[i], draw(Stages[i].key))
    ensures forall k :: k in stageData ==>
              stageData[k].total == stageData[k].inProgress + stageData[k].pending + stageData[k].completed
    ensures totals.inProgress == ColumnSum(Stages, stageData, InProgressColumn)
    ensures totals.pending == ColumnSum(Stages, stageData, PendingColumn)
    ensures totals.completed == ColumnSum(Stages, stageData, CompletedColumn)
    ensures totals.eligibleToTrade == eligibleToTrade
  {
    StageKeysDistinct();
    var inProgress, pending, completed;
    stageData, inProgress, pending, completed := SummariseStages(Stages, draw);
    totals := Totals(inProgress, pending, completed, eligibleToTrade);
  }
}
