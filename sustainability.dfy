/**
 * The sustainability score of a dish: its total emissions mapped onto a
 * scale from 1.0 (worst) to 5.0 (best), falling linearly between a low and
 * a high emissions mark.
 */
module Sustainability {
  import opened Wrappers
  import opened Dicts
  import opened Emissions
  import Fuzzy

  /** Totals at or above this many kg CO2e score the minimum. */
  const MaxEmissions: real := 50.0
  /** Totals at or below this many kg CO2e score the maximum. */
  const MinEmissions: real := 0.1

  /** The straight line through (MinEmissions, 5.0) and (MaxEmissions, 1.0). */
  function Line(totalEmissions: real): real {
    5.0 - ((totalEmissions - MinEmissions) / (MaxEmissions - MinEmissions)) * 4.0
  }

  /** The three-way branch on the total: the top score, the bottom score, or the line between. */
  function RawScore(totalEmissions: real): (score: real)
    ensures 1.0 <= score <= 5.0
    ensures MinEmissions < totalEmissions < MaxEmissions ==> 1.0 < score < 5.0
  {
    if totalEmissions <= MinEmissions then 5.0
    else if totalEmissions >= MaxEmissions then 1.0
    else Line(totalEmissions)
  }

  /** The line reaches the top score exactly at the low mark and the bottom score exactly at the high mark. */
  lemma LineMeetsEnds()
    ensures Line(MinEmissions) == 5.0
    ensures Line(MaxEmissions) == 1.0
  {
  }

  function Clamp(x: real, lo: real, hi: real): real
    requires lo <= hi
  {
    if x < lo then lo else if x > hi then hi else x
  }

  /** The score is the line evaluated at the total clamped into [MinEmissions, MaxEmissions]: the branches join without a jump. */
  lemma RawScoreIsClampedLine(totalEmissions: real)
    ensures RawScore(totalEmissions) == Line(Clamp(totalEmissions, MinEmissions, MaxEmissions))
  {
    LineMeetsEnds();
  }

  /** More emissions never give a better score. */
  lemma RawScoreNonIncreasing(a: real, b: real)
    requires a <= b
    ensures RawScore(b) <= RawScore(a)
  {
  }

  /** Between the two marks, more emissions always give a strictly worse score. */
  lemma RawScoreDecreasingBetweenMarks(a: real, b: real)
    requires MinEmissions <= a < b <= MaxEmissions
    ensures RawScore(b) < RawScore(a)
  {
    RawScoreIsClampedLine(a);
    RawScoreIsClampedLine(b);
  }

  /** The total that the line maps to a given score. */
  function EmissionsForScore(score: real): real {
    MinEmissions + (5.0 - score) / 4.0 * (MaxEmissions - MinEmissions)
  }

  /** Every score from 1.0 to 5.0 is reached, by exactly the total `EmissionsForScore` gives. */
  lemma ScoreInverse(score: real)
    requires 1.0 <= score <= 5.0
    ensures MinEmissions <= EmissionsForScore(score) <= MaxEmissions
    ensures RawScore(EmissionsForScore(score)) == score
  {
    var t := EmissionsForScore(score);
    RawScoreIsClampedLine(t);
  }

  /** Between the marks the score determines the total. */
  lemma TotalFromScore(totalEmissions: real)
    requires MinEmissions < totalEmissions < MaxEmissions
    ensures EmissionsForScore(RawScore(totalEmissions)) == totalEmissions
  {
  }

  /**
   * `min(5.0, float(score)) if isinstance(score, (int, float)) else 3.0`:
   * a number is capped at 5.0, anything else becomes 3.0.
   */
  function CapScore(score: PyNumber): (r: real)
    ensures score.Num? ==> r <= 5.0 && r <= score.value && (r == score.value || r == 5.0)
    ensures score.NonNumeric? ==> r == 3.0
  {
    if score.NonNumeric? then 3.0
    else if 5.0 <= score.value then 5.0 else score.value
  }

  /** A score the branch produced is never changed by the cap, and never falls back to 3.0. */
  lemma CapIsNoOp(totalEmissions: real)
    ensures CapScore(Num(RawScore(totalEmissions))) == RawScore(totalEmissions)
  {
  }

  /**
   * `get_sustainability_score`: the dish's ingredients matched against the
   * scoring table, their "Total Emissions" scored and capped.
   */
  function SustainabilityScore(ingredients: seq<string>, table: EmissionsTable, sim: Fuzzy.Scorer): (score: real)
    ensures 1.0 <= score <= 5.0
  {
    var total := GrandTotal(MatchIngredients(ingredients, Some(table), sim));
    CapScore(Num(RawScore(total)))
  }

  /** The score is the branch applied to the "Total Emissions" of the matched ingredients. */
  lemma ScoreOfTotals(ingredients: seq<string>, table: EmissionsTable, sim: Fuzzy.Scorer)
    ensures SustainabilityScore(ingredients, table, sim)
         == RawScore(Totals(MatchIngredients(ingredients, Some(table), sim))[TotalEmissions])
  {
  }

  /** An ingredient list with no product match has total 0 and so the top score. */
  lemma NoMatchScoresFive(ingredients: seq<string>, table: EmissionsTable, sim: Fuzzy.Scorer)
    requires MatchIngredients(ingredients, Some(table), sim) == []
    ensures SustainabilityScore(ingredients, table, sim) == 5.0
  {
    assert GrandTotal([]) == 0.0;
  }

  /** Of two dishes, the one with less "Total Emissions" never has the lower score. */
  lemma LessEmissionsScoresAtLeastAsHigh(xs: seq<string>, ys: seq<string>, table: EmissionsTable, sim: Fuzzy.Scorer)
    requires GrandTotal(MatchIngredients(xs, Some(table), sim)) <= GrandTotal(MatchIngredients(ys, Some(table), sim))
    ensures SustainabilityScore(ys, table, sim) <= SustainabilityScore(xs, table, sim)
  {
    RawScoreNonIncreasing(GrandTotal(MatchIngredients(xs, Some(table), sim)), GrandTotal(MatchIngredients(ys, Some(table), sim)));
  }
}
