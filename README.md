# GreenBite engine in Dafny

A model of the GreenBite backend's ingredient-resolution and
emissions-aggregation engine, with proofs about it. The engine does the
following:

- It normalises a dish name through a synonym table and looks it up in a
  recipe table with a fuzzy matcher.
- It cleans each recipe's NER text into ingredient tokens.
- It matches ingredients to the products of an emissions table and sums
  the nine emission categories.
- It turns a total into everyday equivalents and into a sustainability
  score from 1.0 to 5.0.
- It compares two dishes.

The route handlers' decision logic is modelled as well: request checks,
filtering, re-cleaning, pairing, the predict score and the compare reply.

Modules, one per file:

- `Wrappers`: `Option`, `Result`, and `PyNumber`, a value that is a number
  or is not.
- `Text`: the Python `str` operations the code uses, on ASCII: `lower`,
  `strip`, `split()`, `split(sep)`, `join`, `replace`, and a
  character-class `re.sub`.
- `Dicts`: a Python `dict` with string keys, as an insertion-ordered list
  of pairs.
- `Fuzzy`: `process.extractOne` and `process.extract`. The similarity
  measure is a function parameter (`Scorer`).
- `PyRepr`: `str()` of a list of strings, with Python's quoting and
  escapes.
- `Http`: parsed JSON bodies and error replies.
- `Ingredients`: `synonym_map`, `normalize_input` and
  `extract_ingredients`.
- `Emissions`: `clean_ingredient`, `match_ingredients_with_emissions`,
  `calculate_total_impact`, Python's `round` and
  `calculate_emissions_equivalence`.
- `Sustainability`: the total-to-score mapping of
  `get_sustainability_score`.
- `Comparison`: `compare_sustainability`.
- `SearchRoute`, `EmissionsRoute`, `PredictRoute` and `CompareRoute`: the
  four route handlers of `main.py`.

## How the model is built

The loops of the source are methods with loop invariants. Each method is
proved equal to a pure function, and the properties are proved about
those functions:

- `NormalizeInput`, `CanonicalForm`, `ExtractIngredients` and
  `CollectRows` model the loops of `ingredients.py`.
- `MatchIngredientsWithEmissions`, `AddRecord` and
  `CalculateTotalImpact` model the loops of `emissions.py`.
- `CleanExtracted` models the re-cleaning loop of the search route, as
  the code is written: each list goes through its `str()` text.

Tables are immutable sequences of rows. A numeric cell that is missing
from a row counts as 0.

The emissions table that `sustainability.py` loads at import time is a
parameter, `scoreTable`. It is the dataset with its "Food product" column
lower-cased and stripped. The route's own emissions table is another
parameter.

Arithmetic is on `real`. `round` rounds half to even.

`normalize_input` replaces a word found among an entry's key or aliases
by that key (backend/ingredients.py:44-46), so "eggplant" becomes
"aubergine"; `Ingredients.AliasesBecomeKeys` proves it.

## Model

| member | source | states |
|---|---|---|
| Text.Lower | backend/ingredients.py:37 | `lower()` keeps the length and lower-cases each character |
| Text.Strip | backend/emissions.py:33 | `strip()` is a slice of the text with only whitespace before and after it, itself without surrounding whitespace, and empty exactly for a blank text |
| Text.StripSlice | backend/emissions.py:33 | the text between the leading and the trailing run of whitespace is that slice |
| Text.StripMembers | backend/emissions.py:33 | every character `strip()` keeps comes from the text |
| Text.StripStripped | backend/main.py:96 | a text without surrounding whitespace is its own `strip()` |
| Text.StripSkipsSpace | backend/main.py:68 | a leading whitespace character does not change `strip()` |
| Text.SplitWords | backend/ingredients.py:37 | `split()` yields words: non-empty runs without whitespace |
| Text.SplitWordsRuns | backend/ingredients.py:37 | the words of `split()` are the maximal runs of non-whitespace: the text is the words in order with whitespace around them and at least one whitespace character between two words |
| Text.SplitOn | backend/ingredients.py:71 | `split(',')` yields one more piece than there are commas, and no piece holds a comma |
| Text.RemoveAll | backend/emissions.py:33 | `replace(c, "")` removes every `c`, keeps every other character, and is the pieces between the `c`s joined in order |
| Text.FilterOutIsJoin | backend/main.py:68 | dropping every occurrence of a character is joining the pieces between its occurrences |
| Text.FilterMembers | backend/ingredients.py:70 | the `re.sub` filter keeps exactly the accepted characters |
| Text.SplitOnJoinRoundTrip | backend/ingredients.py:71 | splitting on a separator and joining again gives back the text |
| Text.JoinSplitOnRoundTrip | backend/ingredients.py:71 | joining separator-free pieces and splitting again gives back the pieces |
| Text.SplitWordsAppend | backend/ingredients.py:50 | words joined by one space split back into the words of both sides |
| Text.LowerIdempotent | backend/ingredients.py:37 | lower-casing twice is lower-casing once |
| Dicts.Get | backend/main.py:280 | `get(k)` finds a value exactly when `k` is a key, and then the value stored with `k` |
| Dicts.Put | backend/emissions.py:61 | after `d[k] = v`, `k` holds `v` and every other key holds what it held |
| Dicts.PutKeys | backend/emissions.py:61 | assigning to a present key keeps the key order; a new key is appended |
| Dicts.PutKeepsKeysDistinct | backend/emissions.py:61 | assignment never creates a second copy of a key |
| Fuzzy.ExtractOne | backend/emissions.py:52 | the result is a choice with the highest score, and nothing only for no choices |
| Fuzzy.Extract | backend/ingredients.py:57 | the `limit` best choices, best first, each a choice with its own score; each choice taken at most as often as it occurs, and no choice left out scores above the last one taken |
| Fuzzy.TakeBest | backend/ingredients.py:57 | the best choice put in front of the best of the others is a selection from the best of all |
| Fuzzy.CountWithout | backend/ingredients.py:57 | taking one choice out removes exactly one of its occurrences |
| PyRepr.ListRepr | backend/main.py:67 | `str()` of a list is the `repr` of each element, joined by ", ", in square brackets |
| PyRepr.ReprItemsJoin | backend/main.py:67 | writing the elements one after the other with ", " between them is joining their `repr`s |
| PyRepr.QuoteFor | backend/main.py:67 | `repr` uses double quotes exactly for a string with a single quote and no double quote |
| PyRepr.EscapeChar | backend/main.py:67 | a printable character is written as itself, any other as a backslash escape |
| PyRepr.TabRepr | backend/main.py:67 | a tab is written as a backslash followed by `t` |
| Ingredients.FirstHit | backend/ingredients.py:44-47 | the scan stops at the first entry, in declaration order, whose key or aliases contain the word |
| Ingredients.CanonicalWords | backend/ingredients.py:41-48 | one output word per input word, in order, each replaced through the table |
| Ingredients.CanonicalForm | backend/ingredients.py:42-47 | the scan-and-break loop for one word gives the key of the first hit, or the word itself |
| Ingredients.NormalizeInput | backend/ingredients.py:35-50 | `normalize_input` is the lower-cased words, each replaced, joined by single spaces |
| Ingredients.CanonicalAtFirstHit | backend/ingredients.py:44-47 | a word goes to the key of the first entry holding it |
| Ingredients.CanonicalWithoutHit | backend/ingredients.py:42-48 | a word no entry holds is emitted unchanged |
| Ingredients.AliasesBecomeKeys | backend/ingredients.py:6-47 | "eggplant" becomes "aubergine", "aubergine" stays itself and "brinjal" stays itself: replacement goes from alias to key |
| Ingredients.CheeseBecomesCheddarCheese | backend/ingredients.py:6-47 | "cheese" becomes "cheddar cheese", the first of the three keys listing it |
| Ingredients.ButterBecomesGhee | backend/ingredients.py:6-47 | "butter" becomes "ghee" |
| Ingredients.OilBecomesOliveOil | backend/ingredients.py:6-47 | "oil" becomes "olive oil" |
| Ingredients.CheddarIsNotInTheTable | backend/ingredients.py:6-47 | "cheddar" alone is in no entry, so it is emitted unchanged |
| Ingredients.KeysStartLowerCase | backend/ingredients.py:6-29 | every key of the table starts with a lower-case letter |
| Ingredients.CanonicalNotBlank | backend/ingredients.py:42-46 | a word never becomes blank |
| Ingredients.NormalizedWordCount | backend/ingredients.py:37-50 | the output has at least as many words as the lower-cased input |
| Ingredients.NormalizedIgnoresCase | backend/ingredients.py:37 | letter case in the dish name does not change the result |
| Ingredients.NormalizedCheese | backend/ingredients.py:35-50 | "cheese" normalises to "cheddar cheese" |
| Ingredients.NormalizedCheddarCheese | backend/ingredients.py:35-50 | "cheddar cheese" normalises to "cheddar cheddar cheese" |
| Ingredients.NormalizedNotIdempotent | backend/ingredients.py:35-50 | normalising twice differs from normalising once |
| Ingredients.SplitWordsMatchable | backend/ingredients.py:37 | every word looked up is lower-case and holds no whitespace |
| Ingredients.PrunedAgrees | backend/ingredients.py:10-47 | multi-word and capitalised aliases never match: dropping them changes no lookup |
| Ingredients.NeverHitsUnmatchable | backend/ingredients.py:44-47 | an entry whose terms are all multi-word or capitalised is never the hit |
| Ingredients.SpringOnionNeverFires | backend/ingredients.py:9-47 | the "spring onion" entry never fires for any dish name |
| Ingredients.CleanNer | backend/ingredients.py:69-71 | one token per comma-separated piece; each token has only word characters and whitespace, and is trimmed and lower-case |
| Ingredients.CleanListSplits | backend/ingredients.py:71 | a clean list written out with commas splits back into its tokens |
| Ingredients.CleanNerOfCleanList | backend/ingredients.py:70-71 | a clean list written out with commas comes back unchanged from the clean-up |
| Ingredients.Titles | backend/ingredients.py:57 | the title column, row by row |
| Ingredients.KeptTitles | backend/ingredients.py:58 | a title is kept exactly when a candidate with that title scores at or above the threshold |
| Ingredients.KeptTitlesFilter | backend/ingredients.py:58 | the comprehension is a filter in order: one candidate keeps its title exactly at the threshold or above, and two runs of candidates keep their titles one after the other |
| Ingredients.BestMatches | backend/ingredients.py:57-58 | at most five kept titles, each a title of the table scoring at or above the threshold, and every one of the five best at the threshold or above is kept |
| Ingredients.KeptScored | backend/ingredients.py:57-58 | every title kept from scored choices is a choice reaching the threshold |
| Ingredients.TitleReachingThreshold | backend/ingredients.py:57-58 | a title of the table reaching the threshold leaves at least one best match |
| Ingredients.RowsForSound | backend/ingredients.py:64-68 | each recipe collected for a title comes from a row with that title |
| Ingredients.RowsForComplete | backend/ingredients.py:64-68 | every row with the title and a non-empty NER string gives its recipe |
| Ingredients.HarvestSound | backend/ingredients.py:63-74 | each harvested recipe comes from one row under one kept title |
| Ingredients.HarvestComplete | backend/ingredients.py:63-74 | every row under a kept title with a non-empty NER string is harvested |
| Ingredients.CollectRows | backend/ingredients.py:64-74 | the inner loop appends one title and one cleaned list per qualifying row, aligned |
| Ingredients.ExtractIngredients | backend/ingredients.py:52-76 | the two returned lists are position-aligned recipes, in candidate-then-row order |
| Ingredients.ExtractedSound | backend/ingredients.py:52-76 | every recipe found has a title scoring at or above the threshold, and the cleaned NER of a row with that title |
| Ingredients.ExtractedComplete | backend/ingredients.py:52-76 | every row under a kept title with a non-empty NER string yields its recipe |
| Ingredients.NothingAboveThreshold | backend/ingredients.py:57-58 | when no title reaches the threshold, both lists are empty |
| Emissions.EveryCategoryIsATotalsKey | backend/emissions.py:79-85 | the totals dictionary has the nine record categories and "Total Emissions" |
| Emissions.CleanIngredient | backend/emissions.py:31-33 | the result holds no `[`, `]`, `"` or upper-case letter and is trimmed |
| Emissions.CleanIngredientIdempotent | backend/emissions.py:31-33 | cleaning twice is cleaning once |
| Emissions.Products | backend/emissions.py:52 | the "Food product" column, row by row |
| Emissions.MatchOneSpec | backend/emissions.py:52-54 | an ingredient is matched exactly when some product scores 80 or more, and then to a product that no product outscores |
| Emissions.FirstRowIndex | backend/emissions.py:55 | the first row carrying the matched product |
| Emissions.RecordOf | backend/emissions.py:61-67 | a record has exactly the nine categories; a missing cell reads 0 |
| Emissions.ProductRecordIsFirstRow | backend/emissions.py:55-67 | the record stored for a product is built from its first row |
| Emissions.MatchesOf | backend/emissions.py:50-54 | one match outcome per ingredient, in order |
| Emissions.MatchIngredients | backend/emissions.py:37-43 | no table, or no "Food product" column, gives `{}` |
| Emissions.MatchIngredientsWithEmissions | backend/emissions.py:35-75 | the loop fills exactly the dictionary `MatchIngredients` describes |
| Emissions.CollectStep | backend/emissions.py:54-70 | a miss leaves the dictionary alone; a match assigns its product's record |
| Emissions.CollectKeys | backend/emissions.py:61 | the keys are exactly the products matched |
| Emissions.CollectValues | backend/emissions.py:61 | a product's value is its own record, whichever ingredient stored it last |
| Emissions.MatchedSize | backend/emissions.py:50-70 | unmatched ingredients are dropped: at most one entry per ingredient |
| Emissions.MatchedKeysDistinct | backend/emissions.py:61 | no product is a key twice |
| Emissions.MatchedKeys | backend/emissions.py:55-61 | a product is a key exactly when some ingredient matched it |
| Emissions.MatchedValues | backend/emissions.py:55-67 | a matched product holds the record of the first row with that product |
| Emissions.RepeatedMatchKeepsKeys | backend/emissions.py:61 | a repeated match overwrites in place and adds no key |
| Emissions.Totals | backend/emissions.py:77-114 | every category's total is its sum over the records; "Total Emissions" is the sum of the nine |
| Emissions.TotalsExtensional | backend/emissions.py:105-114 | any map with those entries is the totals dictionary |
| Emissions.TotalsKeysDistinct | backend/emissions.py:79-85 | the ten totals keys are distinct |
| Emissions.AddRecord | backend/emissions.py:93-98 | the inner loop adds the record's value, or 0, to every total |
| Emissions.CalculateTotalImpact | backend/emissions.py:77-114 | the loops produce the totals dictionary; the second result is its "Total Emissions" |
| Emissions.CategoryTotalStep | backend/emissions.py:91-98 | one more record adds its cell to each category total |
| Emissions.WithGrandTotal | backend/emissions.py:105-110 | storing the sum of the nine totals under "Total Emissions" completes the totals |
| Emissions.EmptyTotals | backend/emissions.py:79-89 | no matched ingredient gives all ten totals 0 |
| Emissions.GrandTotalIsSumOfRecords | backend/emissions.py:91-110 | summing by category first or by record first gives the same "Total Emissions" |
| Emissions.TotalsNonNegative | backend/emissions.py:91-110 | non-negative records give non-negative totals |
| Emissions.CategoryTotalNonNegative | backend/emissions.py:91-98 | non-negative records give non-negative category sums |
| Emissions.MatchedNonNegative | backend/emissions.py:61-67 | a table without negative cells gives records without negative values |
| Emissions.ProductRecordNonNegative | backend/emissions.py:61-67 | the record of a product in such a table has no negative value |
| Emissions.RoundHalfEven | backend/emissions.py:151-153 | `round(x)` is within one half of `x`, and a tie goes to the even integer |
| Emissions.RoundDigits | backend/emissions.py:150 | `round(x, n)` is the multiple of 10^-n nearest to `x`, a tie going to the even multiple; so it is within half of 10^-n of `x` |
| Emissions.NearestOnGridUnique | backend/emissions.py:150 | there is only one such nearest multiple, so the rounding is pinned down |
| Emissions.TiesToEven | backend/emissions.py:150-153 | `round(0.125, 2)` is 0.12, `round(2.5)` is 2 and `round(0.375, 2)` is 0.38 |
| Emissions.RoundToGrid | backend/emissions.py:150 | rounding to a grid of 1/p gives the nearest multiple of 1/p, a tie going to the even one |
| Emissions.GridPoint | backend/emissions.py:150 | the k-th multiple of 1/p is the nearest when k is the nearest integer to `x * p` |
| Emissions.RoundToGridExact | backend/emissions.py:150-153 | a value already on the grid is not moved |
| Emissions.RoundDigitsNonNegative | backend/emissions.py:150-153 | rounding never takes a non-negative value below 0 |
| Emissions.RoundThreeWithin | backend/main.py:124 | `round(x, 3)` is within half a thousandth of `x` |
| Emissions.RoundTwoWithin | backend/main.py:125 | `round(x, 2)` is within half a hundredth of `x` |
| Emissions.EmissionsEquivalence | backend/emissions.py:116-154 | a non-numeric or non-positive total gives the placeholder bundle; otherwise each figure is the total times 4.5, 122, 20 or 10, rounded |
| Emissions.OneKilogram | backend/emissions.py:144-153 | 1 kg gives exactly 4.5, 122, 20 and 10 |
| Emissions.WholeKilograms | backend/emissions.py:144-153 | a whole number of kilograms is converted without rounding |
| Sustainability.RawScore | backend/sustainability.py:41-47 | the score lies in [1.0, 5.0], and strictly inside it between the two marks |
| Sustainability.LineMeetsEnds | backend/sustainability.py:45-47 | the line gives 5.0 at 0.1 and 1.0 at 50.0 |
| Sustainability.RawScoreIsClampedLine | backend/sustainability.py:41-47 | the three branches form one continuous function: the line at the total clamped to [0.1, 50.0] |
| Sustainability.RawScoreNonIncreasing | backend/sustainability.py:41-47 | more emissions never give a better score |
| Sustainability.RawScoreDecreasingBetweenMarks | backend/sustainability.py:45-47 | between the marks, more emissions give a strictly worse score |
| Sustainability.ScoreInverse | backend/sustainability.py:45-47 | every score in [1.0, 5.0] is reached, by the total `EmissionsForScore` gives |
| Sustainability.TotalFromScore | backend/sustainability.py:45-47 | between the marks, the score determines the total |
| Sustainability.CapScore | backend/sustainability.py:50 | a number is capped at 5.0; anything else becomes 3.0 |
| Sustainability.CapIsNoOp | backend/sustainability.py:41-50 | the cap never changes a score the branches produced, and the 3.0 fallback is unreachable |
| Sustainability.SustainabilityScore | backend/sustainability.py:25-52 | the dish's score lies in [1.0, 5.0] |
| Sustainability.ScoreOfTotals | backend/sustainability.py:29-50 | the score is the branch applied to the "Total Emissions" of the matched ingredients |
| Sustainability.NoMatchScoresFive | backend/sustainability.py:30-42 | no match gives total 0 and score 5.0 |
| Sustainability.LessEmissionsScoresAtLeastAsHigh | backend/sustainability.py:29-50 | a dish with less "Total Emissions" never scores lower |
| Comparison.CompareScores | backend/sustainability_comparison.py:111-117 | exactly one of three verdicts: Dish 1 for a higher first score, Dish 2 for a lower one, a tie for equal scores |
| Comparison.SwapScores | backend/sustainability_comparison.py:111-117 | swapping the scores swaps Dish 1 and Dish 2 and leaves a tie a tie |
| Comparison.Report | backend/sustainability_comparison.py:96-131 | a dish's entry copies its title and carries its matched "Total Emissions" and a score in [1.0, 5.0] |
| Comparison.CompareSustainability | backend/sustainability_comparison.py:93-132 | the two entries, and the verdict on their scores |
| Comparison.SwapDishes | backend/sustainability_comparison.py:93-132 | swapping the dishes swaps the entries and mirrors the verdict |
| Comparison.LowerTotalNeverLoses | backend/sustainability_comparison.py:93-132 | with one table for totals and scores, the dish with strictly less "Total Emissions" is never declared less sustainable |
| SearchRoute.ValidateQuery | backend/main.py:42-48 | a missing, non-string or blank query is a 400 reply; otherwise the stripped query, which is not empty |
| SearchRoute.EmptyBodyRejected | backend/main.py:42-44 | an empty or missing body is a 400 reply |
| SearchRoute.CleanText | backend/main.py:67-68 | the cleaned text holds only word characters, whitespace and commas |
| SearchRoute.CleanTextKeepsClean | backend/main.py:67-68 | a text already made of those characters is unchanged |
| SearchRoute.Entries | backend/main.py:69 | one entry per comma-separated piece |
| SearchRoute.EntriesOfCleanText | backend/main.py:67-69 | each entry of a cleaned text is trimmed and holds no `[`, `]`, `"` or comma |
| SearchRoute.ReCleanAsWritten | backend/main.py:64-69 | the re-cleaning of `str(list)` as written: at least one entry, each trimmed, without `[`, `]`, `"` or comma |
| SearchRoute.ReCleanAsWrittenAgrees | backend/main.py:64-69 | on lists without escaped characters, the code as written and the corrected re-cleaning both return the list |
| SearchRoute.TabInIngredient | backend/main.py:67 | an ingredient with a tab survives the NER clean-up, but the re-cleaning as written turns it into "atb" |
| SearchRoute.ReCleanGivesEntries | backend/main.py:64-69 | every entry of the corrected re-cleaning is trimmed and holds no `[`, `]`, `"` or comma |
| SearchRoute.ReCleanKeepsCleanLists | backend/main.py:64-69 | the corrected re-cleaning leaves a clean ingredient list exactly as it is |
| SearchRoute.ReCleanKeepsExtracted | backend/main.py:64-69 | every recipe `extract_ingredients` finds comes back from the re-cleaning unchanged |
| SearchRoute.EachInTurnAt | backend/main.py:64-69 | a list built by appending `f` of each element has `f` of the element at each position |
| SearchRoute.ReCleanAllAt | backend/main.py:64-69 | the i-th cleaned list is the i-th extracted list re-cleaned as written |
| SearchRoute.CleanExtracted | backend/main.py:63-68 | the loop appends the re-cleaned list of each extracted list, as written, in order |
| SearchRoute.ReCleaned | backend/main.py:64-75 | each recipe keeps its title, and every entry of its re-cleaned list is trimmed and holds no `[`, `]`, `"` or comma |
| SearchRoute.PairReCleaned | backend/main.py:63-75 | pairing the matched titles with the re-cleaned lists gives each recipe found with its list re-cleaned as written |
| SearchRoute.ReCleanedPlain | backend/main.py:64-75 | recipes whose ingredients are plain tokens (no escaped character) come back unchanged |
| SearchRoute.PairRecipes | backend/main.py:72-75 | `zip` pairs the i-th title with the i-th list, up to the shorter length |
| SearchRoute.Search | backend/main.py:42-77 | 400 for a bad query, 500 without a recipe table, 400 when nothing is found, otherwise the recipes found, each with its ingredient list re-cleaned as the code is written |
| EmissionsRoute.ValidIngredients | backend/main.py:96 | every kept ingredient is non-empty and stripped |
| EmissionsRoute.ValidIngredientsSound | backend/main.py:96 | each kept ingredient is the stripped text of one of the string items |
| EmissionsRoute.ValidIngredientsComplete | backend/main.py:96 | every string item that is not blank is kept, stripped |
| EmissionsRoute.ValidIngredientsKeepsStripped | backend/main.py:96 | a list of non-blank stripped strings passes the filter unchanged |
| EmissionsRoute.ValidIngredientsIdempotent | backend/main.py:96 | filtering the filtered list changes nothing |
| EmissionsRoute.Rounded | backend/main.py:124 | the breakdown keeps the keys, and each value is its total rounded to the nearest thousandth, ties to even |
| EmissionsRoute.RoundedWithin | backend/main.py:124 | for a full table of totals, every category's value is its total rounded to three places |
| EmissionsRoute.ResponseFor | backend/main.py:119-127 | every total is present, rounded to the nearest thousandth; "Total Emissions" to the nearest hundredth (ties to even); the equivalents are those of the unrounded total |
| EmissionsRoute.ResponseNonNegative | backend/main.py:116-127 | a table without negative cells gives a reply without negative numbers |
| EmissionsRoute.Calculate | backend/main.py:92-127 | 400 without an ingredient list; the empty reply when no ingredient is valid; 500 without a table; the empty reply for no match; otherwise the reply on the totals |
| PredictRoute.ToFloat | backend/main.py:155-175 | `float()` of a number is the number; of null, a list or an object it fails |
| PredictRoute.ToFloats | backend/main.py:155-175 | all eight values convert, or the whole conversion fails |
| PredictRoute.FieldValues | backend/main.py:154-163 | the value under each key, 0 when the key is missing |
| PredictRoute.BreakdownKeys | backend/main.py:168-175 | the eight category names read from the breakdown |
| PredictRoute.EmissionsValues | backend/main.py:145-179 | eight figures, or a 400 or 500 reply |
| PredictRoute.Predict | backend/main.py:145-200 | the piecewise score of the sum of the eight figures, in [1.0, 5.0]; it fails exactly when reading the figures fails |
| PredictRoute.BadRequestCases | backend/main.py:145-179 | a 400 reply exactly for an empty request, or one with neither all eight fields nor a breakdown |
| PredictRoute.DirectFieldsWin | backend/main.py:153-165 | with all eight direct fields present, an added breakdown changes nothing |
| PredictRoute.DirectValues | backend/main.py:153-163 | with all eight direct fields present, the figures are read from them alone |
| PredictRoute.BreakdownValues | backend/main.py:165-179 | otherwise, with a breakdown: 500 when it is not an object; else the figures are its entries under the category names (0 when missing), and the reply is 500 exactly when one does not convert |
| PredictRoute.BreakdownScore | backend/main.py:165-200 | a breakdown of a totals map is scored on its eight categories, without the global average |
| PredictRoute.EightSumOfTotals | backend/main.py:168-184 | those eight add up to "Total Emissions" less the global average |
| PredictRoute.BreakdownScoresAtLeastDishScore | backend/main.py:184-200 | scoring a dish's breakdown never gives less than the dish's own score from the same table |
| CompareRoute.DishNames | backend/main.py:221-232 | both names present, strings and not blank, or a 400/500 reply; a success gives both names stripped and non-empty |
| CompareRoute.IngredientEmissions | backend/main.py:280 | one entry per ingredient, in order, each with the raw-text lookup |
| CompareRoute.Summary | backend/main.py:277-290 | the title, the ingredients in order, a score in [1.0, 5.0], the matched "Total Emissions" and its equivalents |
| CompareRoute.RouteVerdict | backend/main.py:292 | "Dish 1" exactly when the first score is strictly higher, otherwise "Dish 2" |
| CompareRoute.VerdictAgreesOffTies | backend/main.py:292 | off a tie, the route names the dish that the three-way verdict names |
| CompareRoute.TieNamesDish2 | backend/main.py:292 | a tie names "Dish 2", where the three-way verdict reports a tie |
| CompareRoute.SwapRouteVerdict | backend/main.py:292 | swapping different scores swaps the dish named; a swapped tie still names "Dish 2" |
| CompareRoute.Reply | backend/main.py:276-293 | the two summaries, and the verdict on their scores |
| CompareRoute.ReplyAgreesWithComparison | backend/main.py:256-292 | the route and `compare_sustainability` agree on titles, totals and scores, and off a tie on the verdict |
| CompareRoute.RawLookupNeedsProductName | backend/main.py:280 | a non-zero emission is shown only for an ingredient whose own text is a matched product |
| CompareRoute.RawLookupOfProductName | backend/main.py:280 | an ingredient spelled like its matched product shows that product's global average |
| CompareRoute.MatchedButShownZero | backend/main.py:280 | with a one-row table whose product "Tofu" has global average 3.0, any other ingredient text that matches "Tofu" is shown with emission 0 |
| CompareRoute.Summarize | backend/main.py:256-290 | the per-dish steps of the route compute that dish's summary |
| CompareRoute.CompareDishes | backend/main.py:217-300 | the name check; 500 without a recipe table; 404 when either dish has no recipe; otherwise the reply on the first recipe of each dish |

## Left out

- Flask, CORS, the preflight handler, `jsonify`, status-code wiring and `app.run`: only the routes' decisions and reply values are modelled.
- JSON bodies that parse to something other than an object: such a body is not a value of `Body`.
- A non-JSON body in `/compare-dishes` is modelled as a 500 reply, because `get_json()` raises there. The other routes read the body silently and answer 400.
- Dataset loading (`load_emissions_data`, `load_dataset`, the import-time `read_csv` of `sustainability.py`): the tables are parameters, with their numeric cells already coerced.
- The `NameError` that `get_sustainability_score` raises when its import-time load failed: the scoring table is always present.
- `get_best_match` is not part of this model; nothing in the engine calls it.
- The internals of `thefuzz` (WRatio, default processing, tie-breaking between equal scores): the scorer is a parameter. `Fuzzy.Extract` orders equal scores by scan order.
- `float()` on a string in the predict route: a parameter `parse` stands for it.
- IEEE-754 floating point, NaN and infinities: all arithmetic is on `real`.
- Non-ASCII text: case mapping and the `\w`/`\s` classes cover ASCII only.
- The catch-all `except` of each route is modelled only at the points where the modelled code raises: a bad `float()`, a breakdown that is not an object, a non-string dish name and a missing recipe table in `/compare-dishes`. The error messages are modelled as plain strings.
- `sustainability_comparison.py` repeats `clean_ingredient`, `match_ingredients_with_emissions` and `calculate_total_impact` with identical code (only docstrings and comments differ), so they are modelled once, in `Emissions`.
- The wording of the three-way verdict's message, which embeds the score: `Comparison.CompareScores` keeps the case and the score.
- Debug logging.
- `sustainability_ml.py`, the FastAPI model server and the frontend.

## Findings

| source | as written | input that shows it | evidently intended | confidence | as-written member | corrected member |
|---|---|---|---|---|---|---|
| backend/main.py:64-69 | each list is re-cleaned through its `str()` text, so escape sequences such as `\t` are cleaned too: the backslash is dropped and the escape letter joins the name | the recipe list `["a\tb"]`, which `extract_ingredients` can produce since its clean-up keeps whitespace, comes back as `["atb"]` | re-cleaning an already clean list leaves it unchanged | not executed; high for any NER text with a tab, newline or other escaped whitespace | SearchRoute.ReCleanAsWritten (shown by SearchRoute.TabInIngredient; used by SearchRoute.CleanExtracted and SearchRoute.Search, which follow the code) | SearchRoute.ReClean (proved by SearchRoute.ReCleanKeepsCleanLists and SearchRoute.ReCleanKeepsExtracted) |
