/**
 * The evaluation-to-display mapping of `FigureUtils.get_evaluation_graph` in
 * figures.py: each row's evaluation is turned into the value drawn on the graph, and
 * a final neutral evaluation repeats the value before it.
 */
module Figures {
  import opened Wrappers

  /** The two columns of the analysis table the graph reads. */
  datatype EvalRow = EvalRow(evaluationType: string, evaluationValue: int)

  const CentipawnLimit: int := 400
  const MateDisplay: int := 450

  /** The value drawn for one row: centipawns clipped to [-400, 400], a mate at +450 or
      -450 by its sign, any other kind as it is. */
  function DisplayValue(row: EvalRow): (d: int)
    ensures row.evaluationType == "cp" ==>
              && -CentipawnLimit <= d <= CentipawnLimit
              && (-CentipawnLimit <= row.evaluationValue <= CentipawnLimit ==> d == row.evaluationValue)
              && (row.evaluationValue > CentipawnLimit ==> d == CentipawnLimit)
              && (row.evaluationValue < -CentipawnLimit ==> d == -CentipawnLimit)
    ensures row.evaluationType == "mate" ==>
              && (d == MateDisplay <==> row.evaluationValue >= 0)
              && (d == -MateDisplay <==> row.evaluationValue < 0)
    ensures row.evaluationType != "cp" && row.evaluationType != "mate" ==> d == row.evaluationValue
  {
    if row.evaluationType == "cp" then
      if row.evaluationValue < -CentipawnLimit then -CentipawnLimit
      else if row.evaluationValue > CentipawnLimit then CentipawnLimit
      else row.evaluationValue
    else if row.evaluationType == "mate" then
      if row.evaluationValue >= 0 then MateDisplay else -MateDisplay
    else row.evaluationValue
  }

  /** For one kind of evaluation the display never reverses the order of two values. */
  lemma DisplayMonotone(t: string, v1: int, v2: int)
    requires v1 <= v2
    ensures DisplayValue(EvalRow(t, v1)) <= DisplayValue(EvalRow(t, v2))
  {
  }

  /** The displayed values of a table: the same length as the table, row `i` depending
      only on row `i`, except that a final raw value of 0 repeats the display value
      before it. `None` where the source raises IndexError: an empty table, or a
      one-row table whose value is 0. */
  method EvaluationToDisplay(data: seq<EvalRow>) returns (r: Option<seq<int>>)
    ensures r.None? <==> |data| == 0 || (|data| == 1 && data[0].evaluationValue == 0)
    ensures r.Some? ==> |r.value| == |data|
    ensures r.Some? ==> forall i :: 0 <= i < |data| - 1 ==> r.value[i] == DisplayValue(data[i])
    ensures r.Some? && data[|data| - 1].evaluationValue != 0 ==>
              r.value[|data| - 1] == DisplayValue(data[|data| - 1])
    ensures r.Some? && data[|data| - 1].evaluationValue == 0 ==>
              r.value[|data| - 1] == r.value[|data| - 2] == DisplayValue(data[|data| - 2])
  {
    var n := |data|;
    if n == 0 {
      return None;
    }
    var display := new int[n](i => if 0 <= i < n then DisplayValue(data[i]) else 0);
    if data[n - 1].evaluationValue == 0 {
      if n < 2 {
        return None;
      }
      display[n - 1] := display[n - 2];
    }
    r := Some(display[..]);
  }
}
