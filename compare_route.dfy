/**
 * The decision logic of the `/compare-dishes` route: the two dish names
 * checked, the first recipe found for each, its per-ingredient emissions,
 * score, total and equivalents, and a two-way verdict.
 */
module CompareRoute {
  import opened Wrappers
  import opened Text
  import opened Dicts
  import opened Http
  import opened Ingredients
  import opened Emissions
  import opened Sustainability
  import Comparison
  import Fuzzy

  // ---------------------------------------------------------------------
  // The request

  /**
   * The two dish names, stripped. A body that is not JSON makes the route
   * fail with 500 (the non-silent JSON read raises); an empty body or a
   * missing name is a 400 reply; a name that is not a string a 500 reply
   * (it has no `strip`); a blank name a 400 reply.
   */
  function DishNames(body: Body): (r: Result<(string, string), HttpError>)
    ensures r.Failure? ==> r.error.status == BadRequest || r.error.status == ServerError
    ensures r.Success? ==> r.value.0 != [] && IsStripped(r.value.0) && r.value.1 != [] && IsStripped(r.value.1)
    ensures r.Success? <==>
      body.Some? && Get(body.value, "dish1").Some? && Get(body.value, "dish1").value.JStr? &&
      Get(body.value, "dish2").Some? && Get(body.value, "dish2").value.JStr? &&
      HasNonSpace(Get(body.value, "dish1").value.s) && HasNonSpace(Get(body.value, "dish2").value.s)
  {
    if body.None? then Failure(HttpError(ServerError, "Failed to compare dishes"))
    else if body.value == [] || Get(body.value, "dish1").None? || Get(body.value, "dish2").None? then
      Failure(HttpError(BadRequest, "Both dish names are required"))
    else if !Get(body.value, "dish1").value.JStr? || !Get(body.value, "dish2").value.JStr? then
      Failure(HttpError(ServerError, "Failed to compare dishes"))
    else
      var name1 := Strip(Get(body.value, "dish1").value.s);
      var name2 := Strip(Get(body.value, "dish2").value.s);
      if name1 == [] || name2 == [] then Failure(HttpError(BadRequest, "Both dish names cannot be empty"))
      else Success((name1, name2))
  }

  // ---------------------------------------------------------------------
  // One dish

  /** An ingredient of the reply, with the emission shown next to it. */
  datatype IngredientEmission = IngredientEmission(name: string, emission: real)

  /** What the reply says about one dish. */
  datatype DishSummary = DishSummary(
    title: string,
    ingredients: seq<IngredientEmission>,
    sustainabilityScore: real,
    totalEmissions: real,
    equivalence: Equivalence)

  /**
   * The emission shown for an ingredient: the global-average cell of the
   * record stored under the ingredient's own text, 0 when there is none.
   * The match dictionary is keyed by product names, so only an ingredient
   * spelled exactly like the product it matched finds its record.
   */
  function RawLookup(matched: Dict<Record>, ingredient: string): real {
    if Get(matched, ingredient).Some? then Get0(Get(matched, ingredient).value, GlobalAverage) else 0.0
  }

  /** Each ingredient of the dish with the emission shown for it, in order. */
  function IngredientEmissions(ingredients: seq<string>, matched: Dict<Record>): (es: seq<IngredientEmission>)
    ensures |es| == |ingredients|
    ensures forall i :: 0 <= i < |es| ==> es[i].name == ingredients[i]
    ensures forall i :: 0 <= i < |es| ==> es[i].emission == RawLookup(matched, ingredients[i])
  {
    seq(|ingredients|, i requires 0 <= i < |ingredients| => IngredientEmission(ingredients[i], RawLookup(matched, ingredients[i])))
  }

  /**
   * The summary of a dish: its title, its ingredients with their shown
   * emissions, its capped score from the scoring table, the "Total
   * Emissions" of its matches against `emissionsData`, and their equivalents.
   */
  function Summary(dish: Recipe, emissionsData: Option<EmissionsTable>, scoreTable: EmissionsTable, sim: Fuzzy.Scorer)
    : (s: DishSummary)
    ensures s.title == dish.title
    ensures |s.ingredients| == |dish.ingredients|
    ensures forall i :: 0 <= i < |s.ingredients| ==> s.ingredients[i].name == dish.ingredients[i]
    ensures 1.0 <= s.sustainabilityScore <= 5.0
    ensures s.totalEmissions == Totals(MatchIngredients(dish.ingredients, emissionsData, sim))[TotalEmissions]
    ensures s.equivalence == EmissionsEquivalence(Num(s.totalEmissions))
  {
    var matched := MatchIngredients(dish.ingredients, emissionsData, sim);
    var total := GrandTotal(matched);
    DishSummary(dish.title, IngredientEmissions(dish.ingredients, matched),
                CapScore(Num(SustainabilityScore(dish.ingredients, scoreTable, sim))), total,
                EmissionsEquivalence(Num(total)))
  }

  // ---------------------------------------------------------------------
  // The verdict

  /** The dish a verdict names. */
  datatype Named = Dish1 | Dish2

  /** The two-way verdict: Dish 1 only for a strictly higher first score, Dish 2 otherwise. */
  function RouteVerdict(score1: real, score2: real): (n: Named)
    ensures n == Dish1 <==> score1 > score2
    ensures n == Dish2 <==> score1 <= score2
  {
    if score1 > score2 then Dish1 else Dish2
  }

  /** The message of a verdict. */
  function VerdictText(n: Named): string {
    (if n == Dish1 then "Dish 1" else "Dish 2") + " is more sustainable."
  }

  /** Off a tie, the route's verdict names the dish the three-way comparison names. */
  lemma VerdictAgreesOffTies(score1: real, score2: real)
    requires score1 != score2
    ensures RouteVerdict(score1, score2) == Dish1 <==> Comparison.CompareScores(score1, score2).Dish1MoreSustainable?
    ensures RouteVerdict(score1, score2) == Dish2 <==> Comparison.CompareScores(score1, score2).Dish2MoreSustainable?
  {
  }

  /** On a tie the route names Dish 2, where the three-way comparison reports equal scores. */
  lemma TieNamesDish2(score: real)
    ensures RouteVerdict(score, score) == Dish2
    ensures Comparison.CompareScores(score, score).SameScore?
  {
  }

  /** Swapping two different scores swaps the dish the route names; swapping a tie does not. */
  lemma SwapRouteVerdict(score1: real, score2: real)
    ensures score1 != score2 ==> RouteVerdict(score2, score1) != RouteVerdict(score1, score2)
    ensures score1 == score2 ==> RouteVerdict(score2, score1) == RouteVerdict(score1, score2) == Dish2
  {
  }

  /** The reply: the two summaries and the verdict on their scores. */
  datatype CompareReply = CompareReply(dish1: DishSummary, dish2: DishSummary, comparisonResult: string)

  function Reply(dish1: Recipe, dish2: Recipe, emissionsData: Option<EmissionsTable>, scoreTable: EmissionsTable,
                 sim: Fuzzy.Scorer): (r: CompareReply)
    ensures r.dish1 == Summary(dish1, emissionsData, scoreTable, sim)
    ensures r.dish2 == Summary(dish2, emissionsData, scoreTable, sim)
    ensures r.comparisonResult == VerdictText(RouteVerdict(r.dish1.sustainabilityScore, r.dish2.sustainabilityScore))
  {
    var summary1 := Summary(dish1, emissionsData, scoreTable, sim);
    var summary2 := Summary(dish2, emissionsData, scoreTable, sim);
    CompareReply(summary1, summary2, VerdictText(RouteVerdict(summary1.sustainabilityScore, summary2.sustainabilityScore)))
  }

  /**
   * The route and `compare_sustainability` agree on each dish's title, total
   * and score, and off a tie on which dish is more sustainable.
   */
  lemma ReplyAgreesWithComparison(dish1: Recipe, dish2: Recipe, emissionsData: Option<EmissionsTable>,
                                  scoreTable: EmissionsTable, sim: Fuzzy.Scorer)
    ensures var r := Reply(dish1, dish2, emissionsData, scoreTable, sim);
            var c := Comparison.CompareSustainability(dish1, dish2, emissionsData, scoreTable, sim);
            r.dish1.title == c.dish1.title && r.dish2.title == c.dish2.title &&
            r.dish1.totalEmissions == c.dish1.totalEmissions && r.dish2.totalEmissions == c.dish2.totalEmissions &&
            r.dish1.sustainabilityScore == c.dish1.sustainabilityScore &&
            r.dish2.sustainabilityScore == c.dish2.sustainabilityScore &&
            (!c.comparisonResult.SameScore? ==>
              (r.comparisonResult == VerdictText(Dish1) <==> c.comparisonResult.Dish1MoreSustainable?))
  {
    var c := Comparison.CompareSustainability(dish1, dish2, emissionsData, scoreTable, sim);
    CapIsNoOp(GrandTotal(MatchIngredients(dish1.ingredients, Some(scoreTable), sim)));
    CapIsNoOp(GrandTotal(MatchIngredients(dish2.ingredients, Some(scoreTable), sim)));
    // The two messages differ in the dish number, so the message tells which dish was named.
    assert VerdictText(Dish1)[5] != VerdictText(Dish2)[5];
  }

  // ---------------------------------------------------------------------
  // The raw-text lookup

  /** An ingredient is shown a non-zero emission only when its own text is a product some ingredient matched. */
  lemma RawLookupNeedsProductName(ingredients: seq<string>, table: EmissionsTable, sim: Fuzzy.Scorer, ingredient: string)
    requires table.hasProductColumn
    requires RawLookup(MatchIngredients(ingredients, Some(table), sim), ingredient) != 0.0
    ensures exists i :: 0 <= i < |ingredients| && MatchOne(ingredients[i], table.rows, sim) == Some(ingredient)
  {
    MatchedKeys(ingredients, table, sim, ingredient);
  }

  /** An ingredient spelled exactly like a matched product is shown that product's global average. */
  lemma RawLookupOfProductName(ingredients: seq<string>, table: EmissionsTable, sim: Fuzzy.Scorer, i: nat)
    requires table.hasProductColumn
    requires i < |ingredients| && MatchOne(ingredients[i], table.rows, sim) == Some(ingredients[i])
    ensures ingredients[i] in Products(table.rows)
    ensures RawLookup(MatchIngredients(ingredients, Some(table), sim), ingredients[i])
         == Get0(table.rows[FirstRowIndex(ingredients[i], table.rows)].cells, GlobalAverage)
  {
    MatchedKeys(ingredients, table, sim, ingredients[i]);
    MatchedValues(ingredients, table, sim, ingredients[i]);
  }

  /** The table of the example below: one product, "Tofu", with a global average of 3.0. */
  const TofuTable := EmissionsTable(true, [EmissionsRow("Tofu", map[GlobalAverage := 3.0])])

  /** A similarity that scores every pair 100. */
  function Agreeable(query: string, choice: string): int { 100 }

  /**
   * An ingredient matched to a product spelled differently is shown 0: any
   * ingredient other than "Tofu" itself, "tofu" say, is matched to the
   * product "Tofu", whose record holds a global average of 3.0, but the
   * lookup under the ingredient's own text finds nothing.
   */
  lemma MatchedButShownZero(ingredient: string)
    requires ingredient != "Tofu"
    ensures var d := MatchIngredients([ingredient], Some(TofuTable), Agreeable);
            Keys(d) == ["Tofu"] && Get0(Get(d, "Tofu").value, GlobalAverage) == 3.0 &&
            RawLookup(d, ingredient) == 0.0
  {
    TofuMatches(ingredient);
    var d := MatchIngredients([ingredient], Some(TofuTable), Agreeable);
    assert Get0(RecordOf(TofuTable.rows[0]), GlobalAverage) == 3.0;
    assert Get(d, ingredient).None?;
  }

  lemma TofuMatches(ingredient: string)
    ensures MatchIngredients([ingredient], Some(TofuTable), Agreeable) == [("Tofu", RecordOf(TofuTable.rows[0]))]
  {
    var rows := TofuTable.rows;
    TofuIsMatched(ingredient);
    assert MatchesOf([ingredient], rows, Agreeable) == [Some("Tofu")];
    TofuCollected();
  }

  lemma TofuCollected()
    ensures Collect([Some("Tofu")], TofuTable.rows) == [("Tofu", RecordOf(TofuTable.rows[0]))]
  {
    var rows := TofuTable.rows;
    assert [Some("Tofu")][..0] == [];
    assert Collect([Some("Tofu")], rows) == Put([], "Tofu", ProductRecord("Tofu", rows));
    assert ProductRecord("Tofu", rows) == RecordOf(rows[0]);
  }

  /** Every ingredient is matched to the table's one product. */
  lemma TofuIsMatched(ingredient: string)
    ensures MatchOne(ingredient, TofuTable.rows, Agreeable) == Some("Tofu")
  {
    assert Products(TofuTable.rows) == ["Tofu"];
  }

  // ---------------------------------------------------------------------
  // The route

  /**
   * `/compare-dishes`: the name check; 500 without a recipe table (the
   * lookup on a missing table raises); 404 when either dish has no recipe;
   * otherwise the reply on the first recipe found for each dish.
   */
  method CompareDishes(body: Body, recipes: Option<seq<RecipeRow>>, emissionsData: Option<EmissionsTable>,
                       scoreTable: EmissionsTable, sim: Fuzzy.Scorer)
    returns (r: Result<CompareReply, HttpError>)
    ensures DishNames(body).Failure? ==> r == Failure(DishNames(body).error)
    ensures DishNames(body).Success? && recipes.None? ==> r.Failure? && r.error.status == ServerError
    ensures DishNames(body).Success? && recipes.Some? ==>
      var found1 := Extracted(DishNames(body).value.0, recipes.value, sim, ExtractThreshold);
      var found2 := Extracted(DishNames(body).value.1, recipes.value, sim, ExtractThreshold);
      ((found1 == [] || found2 == []) ==> r.Failure? && r.error.status == NotFound) &&
      (found1 != [] && found2 != [] ==> r == Success(Reply(found1[0], found2[0], emissionsData, scoreTable, sim)))
  {
    var names := DishNames(body);
    if names.Failure? {
      return Failure(names.error);
    }
    var (name1, name2) := names.value;
    if recipes.None? {
      return Failure(HttpError(ServerError, "Failed to compare dishes"));
    }
    var ingredients1, titles1 := ExtractIngredients(name1, recipes.value, sim, ExtractThreshold);
    var ingredients2, titles2 := ExtractIngredients(name2, recipes.value, sim, ExtractThreshold);
    if ingredients1 == [] || ingredients2 == [] {
      return Failure(HttpError(NotFound, "Could not find recipes for one or both dishes"));
    }
    var dish1 := Recipe(if titles1 != [] then titles1[0] else name1, ingredients1[0]);
    var dish2 := Recipe(if titles2 != [] then titles2[0] else name2, ingredients2[0]);

    var summary1 := Summarize(dish1, emissionsData, scoreTable, sim);
    var summary2 := Summarize(dish2, emissionsData, scoreTable, sim);
    r := Success(CompareReply(summary1, summary2, VerdictText(RouteVerdict(summary1.sustainabilityScore, summary2.sustainabilityScore))));
  }

  /**
   * What the route computes for one of the two dishes: the capped score,
   * the matches and their "Total Emissions", the equivalents, and the
   * emission shown per ingredient.
   */
  method Summarize(dish: Recipe, emissionsData: Option<EmissionsTable>, scoreTable: EmissionsTable, sim: Fuzzy.Scorer)
    returns (summary: DishSummary)
    ensures summary == Summary(dish, emissionsData, scoreTable, sim)
  {
    var score := SustainabilityScore(dish.ingredients, scoreTable, sim);
    var emissions := MatchIngredientsWithEmissions(dish.ingredients, emissionsData, sim);
    var _, total := CalculateTotalImpact(emissions);
    var equivalence := EmissionsEquivalence(Num(total));
    score := CapScore(Num(score));
    summary := DishSummary(dish.title, IngredientEmissions(dish.ingredients, emissions), score, total, equivalence);
  }
}
