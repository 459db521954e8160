/**
 * The decision logic of the `/emissions` route: the request check, the
 * filtering of the submitted ingredient list, and the reply built from the
 * matched records' totals, rounded.
 */
module EmissionsRoute {
  import opened Wrappers
  import opened Text
  import opened Dicts
  import opened Http
  import opened Emissions
  import Fuzzy

  // ---------------------------------------------------------------------
  // The request

  /** `data["ingredients"]` when the body is a non-empty object holding a list under that key. */
  function IngredientItems(body: Body): Option<seq<Json>> {
    if IsEmptyBody(body) || Get(body.value, "ingredients").None? then None
    else if Get(body.value, "ingredients").value.JArr? then Some(Get(body.value, "ingredients").value.items)
    else None
  }

  /** What one item contributes: the text of a string item that is not blank, stripped. */
  function ItemText(item: Json): Option<string> {
    if item.JStr? && Strip(item.s) != [] then Some(Strip(item.s)) else None
  }

  /** The texts the items contribute, in order. */
  function Texts(items: seq<Json>, text: Json -> Option<string>): seq<string> {
    if items == [] then []
    else (if text(items[0]).Some? then [text(items[0]).value] else []) + Texts(items[1..], text)
  }

  /** Each text comes from one of the items: the `j`-th. */
  lemma {:induction false} TextsSound(items: seq<Json>, text: Json -> Option<string>, i: nat) returns (j: nat)
    requires i < |Texts(items, text)|
    ensures j < |items| && text(items[j]) == Some(Texts(items, text)[i])
  {
    var rest := Texts(items[1..], text);
    if text(items[0]).Some? && i == 0 {
      j := 0;
    } else {
      var i' := if text(items[0]).Some? then i - 1 else i;
      var k := TextsSound(items[1..], text, i');
      assert items[1..][k] == items[k + 1];
      j := k + 1;
    }
  }

  /** Every item with a text contributes it. */
  lemma {:induction false} TextsComplete(items: seq<Json>, text: Json -> Option<string>, j: nat)
    requires j < |items| && text(items[j]).Some?
    ensures text(items[j]).value in Texts(items, text)
  {
    if j > 0 {
      TextsComplete(items[1..], text, j - 1);
      assert items[1..][j - 1] == items[j];
    }
  }

  /**
   * The submitted ingredients the route works with: the string items that
   * are not blank, each with its surrounding whitespace removed, in order.
   */
  function ValidIngredients(items: seq<Json>): (ingredients: seq<string>)
    ensures forall i :: 0 <= i < |ingredients| ==> ingredients[i] != [] && IsStripped(ingredients[i])
  {
    var ingredients := Texts(items, ItemText);
    assert forall i :: 0 <= i < |ingredients| ==> ingredients[i] != [] && IsStripped(ingredients[i]) by {
      forall i | 0 <= i < |ingredients|
        ensures ingredients[i] != [] && IsStripped(ingredients[i])
      {
        var j := TextsSound(items, ItemText, i);
      }
    }
    ingredients
  }

  /** A list of strings as JSON items. */
  function StringItems(ss: seq<string>): (items: seq<Json>)
    ensures |items| == |ss|
    ensures forall i :: 0 <= i < |ss| ==> items[i] == JStr(ss[i])
  {
    seq(|ss|, i requires 0 <= i < |ss| => JStr(ss[i]))
  }

  /** Every valid ingredient is the stripped text of one of the string items: the `j`-th. */
  lemma ValidIngredientsSound(items: seq<Json>, i: nat) returns (j: nat)
    requires i < |ValidIngredients(items)|
    ensures j < |items| && items[j].JStr? && ValidIngredients(items)[i] == Strip(items[j].s)
  {
    j := TextsSound(items, ItemText, i);
  }

  /** Every string item that is not blank is kept, stripped. */
  lemma ValidIngredientsComplete(items: seq<Json>, j: nat)
    requires j < |items| && items[j].JStr? && HasNonSpace(items[j].s)
    ensures Strip(items[j].s) in ValidIngredients(items)
  {
    TextsComplete(items, ItemText, j);
  }

  /** A list of non-blank stripped strings passes through the filter unchanged. */
  lemma {:induction false} ValidIngredientsKeepsStripped(ss: seq<string>)
    requires forall i :: 0 <= i < |ss| ==> ss[i] != [] && IsStripped(ss[i])
    ensures ValidIngredients(StringItems(ss)) == ss
  {
    if ss != [] {
      StripStripped(ss[0]);
      assert StringItems(ss)[1..] == StringItems(ss[1..]);
      ValidIngredientsKeepsStripped(ss[1..]);
      assert ss == [ss[0]] + ss[1..];
      assert ItemText(StringItems(ss)[0]) == Some(ss[0]);
    }
  }

  /** Filtering the filtered list again changes nothing. */
  lemma ValidIngredientsIdempotent(items: seq<Json>)
    ensures ValidIngredients(StringItems(ValidIngredients(items))) == ValidIngredients(items)
  {
    ValidIngredientsKeepsStripped(ValidIngredients(items));
  }

  // ---------------------------------------------------------------------
  // The reply

  /**
   * A successful reply: the rounded totals per category, the rounded
   * "Total Emissions", and the everyday equivalents when there were matches.
   */
  datatype EmissionsResponse = EmissionsResponse(breakdown: map<Category, real>, totalEmissions: real, equivalence: Option<Equivalence>)

  /** `{"breakdown": {}, "total_emissions": 0}`. */
  const EmptyResponse := EmissionsResponse(map[], 0.0, None)

  /**
   * The reply for a non-empty match dictionary: every total rounded to three
   * decimals, "Total Emissions" also on its own rounded to two, and the
   * equivalents of the unrounded total.
   */
  function ResponseFor(d: Dict<Record>): (r: EmissionsResponse)
    ensures forall c :: c in r.breakdown
    ensures forall c :: Totals(d)[c] - 1.0 / 2000.0 <= r.breakdown[c] <= Totals(d)[c] + 1.0 / 2000.0
    ensures forall c :: NearestOnGrid(r.breakdown[c], Totals(d)[c], 1000.0)
    ensures GrandTotal(d) - 1.0 / 200.0 <= r.totalEmissions <= GrandTotal(d) + 1.0 / 200.0
    ensures NearestOnGrid(r.totalEmissions, GrandTotal(d), 100.0)
    ensures r.equivalence == Some(EmissionsEquivalence(Num(GrandTotal(d))))
  {
    var total := GrandTotal(d);
    RoundedWithin(Totals(d));
    RoundTwoWithin(total);
    assert Pow10(2) == 100.0;
    EmissionsResponse(Rounded(Totals(d)), RoundDigits(total, 2), Some(EmissionsEquivalence(Num(total))))
  }

  /** Rounding a full table of totals keeps every total within half a thousandth. */
  lemma RoundedWithin(t: map<Category, real>)
    requires forall c :: c in t
    ensures forall c :: t[c] - 1.0 / 2000.0 <= Rounded(t)[c] <= t[c] + 1.0 / 2000.0
    ensures forall c :: NearestOnGrid(Rounded(t)[c], t[c], 1000.0)
  {
  }

  /** Every total rounded to three decimals. */
  function Rounded(t: map<Category, real>): (b: map<Category, real>)
    ensures b.Keys == t.Keys
    ensures forall c :: c in t ==> t[c] - 1.0 / 2000.0 <= b[c] <= t[c] + 1.0 / 2000.0
    ensures forall c :: c in t ==> NearestOnGrid(b[c], t[c], 1000.0)
  {
    var b := map c | c in t :: RoundDigits(t[c], 3);
    assert Pow10(3) == 1000.0;
    assert forall c :: c in t ==> t[c] - 1.0 / 2000.0 <= b[c] <= t[c] + 1.0 / 2000.0 by {
      forall c | c in t { RoundThreeWithin(t[c]); }
    }
    b
  }

  /** A table without negative cells gives a reply without negative numbers. */
  lemma ResponseNonNegative(ingredients: seq<string>, table: EmissionsTable, sim: Fuzzy.Scorer)
    requires forall k :: 0 <= k < |table.rows| ==> NonNegativeCells(table.rows[k].cells)
    ensures var r := ResponseFor(MatchIngredients(ingredients, Some(table), sim));
            r.totalEmissions >= 0.0 && forall c :: r.breakdown[c] >= 0.0
  {
    var d := MatchIngredients(ingredients, Some(table), sim);
    MatchedNonNegative(ingredients, Some(table), sim);
    TotalsNonNegative(d);
    forall c
      ensures RoundDigits(Totals(d)[c], 3) >= 0.0
    {
      RoundDigitsNonNegative(Totals(d)[c], 3);
    }
    RoundDigitsNonNegative(Totals(d)[TotalEmissions], 2);
  }

  // ---------------------------------------------------------------------
  // The route

  /**
   * `/emissions`: 400 for a body without an ingredient list; the empty reply
   * when no ingredient is valid; 500 without an emissions table; the empty
   * reply when nothing matches; otherwise the totals of the matches.
   */
  method Calculate(body: Body, dataset: Option<EmissionsTable>, sim: Fuzzy.Scorer)
    returns (r: Result<EmissionsResponse, HttpError>)
    ensures IngredientItems(body).None? ==> r == Failure(HttpError(BadRequest, "Invalid request format"))
    ensures IngredientItems(body).Some? ==>
      var ingredients := ValidIngredients(IngredientItems(body).value);
      (ingredients == [] ==> r == Success(EmptyResponse)) &&
      (ingredients != [] && dataset.None? ==> r.Failure? && r.error.status == ServerError) &&
      (ingredients != [] && dataset.Some? ==>
        var d := MatchIngredients(ingredients, dataset, sim);
        r == Success(if d == [] then EmptyResponse else ResponseFor(d)))
  {
    var items := IngredientItems(body);
    if items.None? {
      return Failure(HttpError(BadRequest, "Invalid request format"));
    }
    var ingredients := ValidIngredients(items.value);
    if ingredients == [] {
      return Success(EmptyResponse);
    }
    if dataset.None? {
      return Failure(HttpError(ServerError, "Emissions dataset not loaded"));
    }
    var matched := MatchIngredientsWithEmissions(ingredients, dataset, sim);
    if matched == [] {
      return Success(EmptyResponse);
    }
    var totalImpact, totalEmissions := CalculateTotalImpact(matched);
    var equivalence := EmissionsEquivalence(Num(totalEmissions));
    r := Success(EmissionsResponse(Rounded(totalImpact), RoundDigits(totalEmissions, 2), Some(equivalence)));
  }
}
