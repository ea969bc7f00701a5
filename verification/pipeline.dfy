/**
 The `summarize_pipeline` tool: one pass over the rows that sums values
 and scores and counts high-risk, high-value and neglected deals, with a
 distinct message for an empty table.
 */
module Pipeline {
  import opened Deals
  import opened Advice

  const NoDealsMessage: string := "No deals in pipeline."

  /** A score below this marks a deal as high risk. */
  const HighRiskBelow: int := 50

  /** The summary of a non-empty table, or the empty-table message.
      `probabilitySum` is the numerator of the average close probability;
      the server reports the real quotient
      `probabilitySum as real / totalDeals as real`, rounded to two
      decimal places. */
  datatype PipelineSummary =
    | NoDeals(message: string)
    | Summary(
        totalDeals: nat,
        totalPipelineValue: int,
        probabilitySum: int,
        highRiskDeals: nat,
        highValueDeals: nat,
        dealsNeedingAttention: nat)

  /* Reference definitions, by recursion on the last row. */

  function TotalValue(rows: seq<Deal>): int {
    if rows == [] then 0 else TotalValue(rows[..|rows| - 1]) + rows[|rows| - 1].value
  }

  function TotalScore(rows: seq<Deal>): int {
    if rows == [] then 0 else TotalScore(rows[..|rows| - 1]) + Score(rows[|rows| - 1])
  }

  function CountHighRisk(rows: seq<Deal>): nat {
    if rows == [] then 0
    else CountHighRisk(rows[..|rows| - 1]) + (if Score(rows[|rows| - 1]) < HighRiskBelow then 1 else 0)
  }

  function CountHighValue(rows: seq<Deal>): nat {
    if rows == [] then 0
    else CountHighValue(rows[..|rows| - 1]) + (if rows[|rows| - 1].value > HighValueThreshold then 1 else 0)
  }

  function CountNeedingAttention(rows: seq<Deal>): nat {
    if rows == [] then 0
    else CountNeedingAttention(rows[..|rows| - 1]) + (if Silent(rows[|rows| - 1]) then 1 else 0)
  }

  /** Every score is at least 65, so no deal is ever counted as high risk. */
  lemma {:induction false} NoHighRiskDeals(rows: seq<Deal>)
    ensures CountHighRisk(rows) == 0
  {
    if rows != [] {
      NoHighRiskDeals(rows[..|rows| - 1]);
    }
  }

  /** The scores sum to between 65 and 110 per deal, so the average close
      probability lies in [65, 110]. */
  lemma {:induction false} TotalScoreBounds(rows: seq<Deal>)
    ensures 65 * |rows| <= TotalScore(rows) <= 110 * |rows|
  {
    if rows != [] {
      TotalScoreBounds(rows[..|rows| - 1]);
    }
  }

  /** Each count is a count of some of the rows. */
  lemma {:induction false} CountsBounded(rows: seq<Deal>)
    ensures CountHighValue(rows) <= |rows|
    ensures CountNeedingAttention(rows) <= |rows|
  {
    if rows != [] {
      CountsBounded(rows[..|rows| - 1]);
    }
  }

  /** The tool on the rows the table returned, in one pass. */
  method SummarizePipeline(rows: seq<Deal>) returns (r: PipelineSummary)
    ensures r.NoDeals? <==> rows == []
    ensures r.NoDeals? ==> r.message == NoDealsMessage
    ensures r.Summary? ==>
      && r.totalDeals == |rows|
      && r.totalPipelineValue == TotalValue(rows)
      && r.probabilitySum == TotalScore(rows)
      && r.highRiskDeals == 0
      && r.highValueDeals == CountHighValue(rows)
      && r.dealsNeedingAttention == CountNeedingAttention(rows)
    ensures r.Summary? ==> 65 * r.totalDeals <= r.probabilitySum <= 110 * r.totalDeals
  {
    if rows == [] {
      return NoDeals(NoDealsMessage);
    }
    var totalValue := 0;
    var probabilitySum := 0;
    var highRisk := 0;
    var highValue := 0;
    var attention := 0;
    var i := 0;
    while i < |rows|
      invariant 0 <= i <= |rows|
      invariant totalValue == TotalValue(rows[..i])
      invariant probabilitySum == TotalScore(rows[..i])
      invariant highRisk == CountHighRisk(rows[..i])
      invariant highValue == CountHighValue(rows[..i])
      invariant attention == CountNeedingAttention(rows[..i])
    {
      var d := rows[i];
      assert rows[..i + 1][..i] == rows[..i];
      totalValue := totalValue + d.value;
      var probability := Score(d);
      probabilitySum := probabilitySum + probability;
      if probability < HighRiskBelow {
        highRisk := highRisk + 1;
      }
      if d.value > HighValueThreshold {
        highValue := highValue + 1;
      }
      if Silent(d) {
        attention := attention + 1;
      }
      i := i + 1;
    }
    assert rows[..i] == rows;
    NoHighRiskDeals(rows);
    TotalScoreBounds(rows);
    r := Summary(|rows|, totalValue, probabilitySum, highRisk, highValue, attention);
  }
}
