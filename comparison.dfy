/**
 * `compare_sustainability`: two dishes matched, totalled and scored, and a
 * three-way verdict on their scores.
 */
module Comparison {
  import opened Wrappers
  import opened Emissions
  import opened Sustainability
  import Ingredients
  import Fuzzy

  /** Which dish the comparison names, with the score its message quotes. */
  datatype Verdict =
    | Dish1MoreSustainable(score: real)
    | Dish2MoreSustainable(score: real)
    | SameScore(score: real)

  /** The verdict on two scores: the strictly higher one wins, equal scores tie. */
  function CompareScores(score1: real, score2: real): (v: Verdict)
    ensures v.Dish1MoreSustainable? <==> score1 > score2
    ensures v.Dish2MoreSustainable? <==> score1 < score2
    ensures v.SameScore? <==> score1 == score2
    ensures v.score == (if score1 < score2 then score2 else score1)
  {
    if score1 > score2 then Dish1MoreSustainable(score1)
    else if score1 < score2 then Dish2MoreSustainable(score2)
    else SameScore(score1)
  }

  /** The verdict read with the two dishes' roles exchanged. */
  function Mirror(v: Verdict): Verdict {
    match v
    case Dish1MoreSustainable(s) => Dish2MoreSustainable(s)
    case Dish2MoreSustainable(s) => Dish1MoreSustainable(s)
    case SameScore(s) => SameScore(s)
  }

  /** Comparing in the other order names the other dish, and a tie stays a tie. */
  lemma SwapScores(score1: real, score2: real)
    ensures CompareScores(score2, score1) == Mirror(CompareScores(score1, score2))
  {
  }

  /** What the comparison reports for one dish. */
  datatype DishReport = DishReport(title: string, totalEmissions: real, sustainabilityScore: real)

  datatype ComparisonReport = ComparisonReport(dish1: DishReport, dish2: DishReport, comparisonResult: Verdict)

  /** One dish's entry: its title, its matched "Total Emissions" and its score. */
  function Report(dish: Ingredients.Recipe, emissionsData: Option<EmissionsTable>, scoreTable: EmissionsTable, sim: Fuzzy.Scorer): (r: DishReport)
    ensures r.title == dish.title
    ensures r.totalEmissions == Totals(MatchIngredients(dish.ingredients, emissionsData, sim))[TotalEmissions]
    ensures 1.0 <= r.sustainabilityScore <= 5.0
  {
    DishReport(dish.title, GrandTotal(MatchIngredients(dish.ingredients, emissionsData, sim)),
               SustainabilityScore(dish.ingredients, scoreTable, sim))
  }

  /**
   * `compare_sustainability`: each dish is matched against `emissionsData`
   * for its total and scored against the scoring table; the verdict
   * compares the scores.
   */
  function CompareSustainability(dish1: Ingredients.Recipe, dish2: Ingredients.Recipe, emissionsData: Option<EmissionsTable>,
                                 scoreTable: EmissionsTable, sim: Fuzzy.Scorer): (r: ComparisonReport)
    ensures r.dish1 == Report(dish1, emissionsData, scoreTable, sim)
    ensures r.dish2 == Report(dish2, emissionsData, scoreTable, sim)
    ensures r.comparisonResult == CompareScores(r.dish1.sustainabilityScore, r.dish2.sustainabilityScore)
  {
    var report1 := Report(dish1, emissionsData, scoreTable, sim);
    var report2 := Report(dish2, emissionsData, scoreTable, sim);
    ComparisonReport(report1, report2, CompareScores(report1.sustainabilityScore, report2.sustainabilityScore))
  }

  /** Swapping the two dishes swaps their entries and mirrors the verdict. */
  lemma SwapDishes(dish1: Ingredients.Recipe, dish2: Ingredients.Recipe, emissionsData: Option<EmissionsTable>,
                   scoreTable: EmissionsTable, sim: Fuzzy.Scorer)
    ensures var r := CompareSustainability(dish1, dish2, emissionsData, scoreTable, sim);
            CompareSustainability(dish2, dish1, emissionsData, scoreTable, sim)
              == ComparisonReport(r.dish2, r.dish1, Mirror(r.comparisonResult))
  {
    var r := CompareSustainability(dish1, dish2, emissionsData, scoreTable, sim);
    SwapScores(r.dish1.sustainabilityScore, r.dish2.sustainabilityScore);
  }

  /**
   * When the totals and the scores come from the same table, the dish with
   * strictly less "Total Emissions" is never declared the less sustainable one.
   */
  lemma LowerTotalNeverLoses(dish1: Ingredients.Recipe, dish2: Ingredients.Recipe, table: EmissionsTable, sim: Fuzzy.Scorer)
    ensures var r := CompareSustainability(dish1, dish2, Some(table), table, sim);
            r.dish1.totalEmissions < r.dish2.totalEmissions ==> !r.comparisonResult.Dish2MoreSustainable?
  {
    var r := CompareSustainability(dish1, dish2, Some(table), table, sim);
    if r.dish1.totalEmissions < r.dish2.totalEmissions {
      LessEmissionsScoresAtLeastAsHigh(dish1.ingredients, dish2.ingredients, table, sim);
    }
  }
}
