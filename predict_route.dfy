/**
 * The decision logic of the `/predict` route: eight emissions figures read
 * from the request, either as eight named fields or from a breakdown
 * object, added up and mapped onto the 1.0 to 5.0 sustainability scale.
 */
module PredictRoute {
  import opened Wrappers
  import opened Dicts
  import opened Http
  import opened Emissions
  import opened Sustainability
  import Fuzzy

  /** The eight fields a request may give directly, in the source's order. */
  const DirectKeys: seq<string> :=
    ["land_use_change", "feed", "farm", "processing", "transport", "packaging", "retail", "total_land_to_retail"]

  /** The categories those fields stand for, in the same order: all but the global average. */
  const PredictCategories: seq<Category> :=
    [LandUseChange, Feed, Farm, Processing, Transport, Packaging, Retail, LandToRetail]

  /**
   * Python's `float(x)` on a JSON value: a number is itself, a boolean 1.0
   * or 0.0, a string whatever `parse` (Python's `float` on a string) makes of
   * it, and anything else fails.
   */
  function ToFloat(v: Json, parse: string -> Option<real>): (r: Option<real>)
    ensures v.JNum? ==> r == Some(v.n)
    ensures (v.JNull? || v.JArr? || v.JObj?) ==> r.None?
  {
    match v
    case JNum(n) => Some(n)
    case JBool(b) => Some(if b then 1.0 else 0.0)
    case JStr(s) => parse(s)
    case _ => None
  }

  /** Every value converted, in order; nothing when one of them fails. */
  function ToFloats(vs: seq<Json>, parse: string -> Option<real>): (r: Option<seq<real>>)
    ensures r.Some? <==> forall i :: 0 <= i < |vs| ==> ToFloat(vs[i], parse).Some?
    ensures r.Some? ==> |r.value| == |vs| && forall i :: 0 <= i < |vs| ==> r.value[i] == ToFloat(vs[i], parse).value
  {
    if vs == [] then Some([])
    else
      var head := ToFloat(vs[0], parse);
      var rest := ToFloats(vs[1..], parse);
      if head.None? || rest.None? then None
      else
        var r := [head.value] + rest.value;
        assert forall i :: 1 <= i < |vs| ==> vs[i] == vs[1..][i - 1];
        Some(r)
  }

  /** `sum` of a list of numbers. */
  function Sum(xs: seq<real>): real {
    if xs == [] then 0.0 else xs[0] + Sum(xs[1..])
  }

  /** `d.get(key, 0)`. */
  function GetOrZero(d: Dict<Json>, key: string): Json {
    if Get(d, key).Some? then Get(d, key).value else JNum(0.0)
  }

  /** The request has all eight direct fields. */
  predicate HasDirectFields(data: Dict<Json>) {
    forall i :: 0 <= i < |DirectKeys| ==> Get(data, DirectKeys[i]).Some?
  }

  /** The eight values the route reads from an object under the given eight keys. */
  function FieldValues(d: Dict<Json>, keys: seq<string>): (vs: seq<Json>)
    ensures |vs| == |keys|
    ensures forall i :: 0 <= i < |keys| ==> vs[i] == GetOrZero(d, keys[i])
  {
    seq(|keys|, i requires 0 <= i < |keys| => GetOrZero(d, keys[i]))
  }

  /** The breakdown keys the route reads: the names of the eight categories. */
  function BreakdownKeys(): (keys: seq<string>)
    ensures |keys| == 8
    ensures forall i :: 0 <= i < 8 ==> keys[i] == Name(PredictCategories[i])
  {
    seq(8, i requires 0 <= i < 8 => Name(PredictCategories[i]))
  }

  /**
   * The eight figures the route works with: the direct fields when all eight
   * are there, otherwise the breakdown's entries (0 for a missing one).
   * A request with neither, or an empty one, is a 400 reply; a value that
   * does not convert, or a breakdown that is not an object, a 500 reply.
   */
  function EmissionsValues(body: Body, parse: string -> Option<real>): (r: Result<seq<real>, HttpError>)
    ensures r.Success? ==> |r.value| == 8
    ensures r.Failure? ==> r.error.status == BadRequest || r.error.status == ServerError
  {
    if IsEmptyBody(body) then Failure(HttpError(BadRequest, "Invalid request format"))
    else
      var data := body.value;
      var values :=
        if HasDirectFields(data) then Some(FieldValues(data, DirectKeys))
        else if Get(data, "breakdown").Some? && Get(data, "breakdown").value.JObj? then
          Some(FieldValues(Get(data, "breakdown").value.fields, BreakdownKeys()))
        else None;
      if !HasDirectFields(data) && Get(data, "breakdown").None? then
        Failure(HttpError(BadRequest, "No valid emissions data found"))
      else if values.None? then
        Failure(HttpError(ServerError, "the breakdown has no get method"))
      else
        var floats := ToFloats(values.value, parse);
        if floats.None? then Failure(HttpError(ServerError, "could not convert to float"))
        else Success(floats.value)
  }

  /** `/predict`: the score of the sum of the eight figures, capped at 5.0. */
  function Predict(body: Body, parse: string -> Option<real>): (r: Result<real, HttpError>)
    ensures r.Success? ==> 1.0 <= r.value <= 5.0
    ensures r.Failure? <==> EmissionsValues(body, parse).Failure?
    ensures r.Success? ==> r.value == RawScore(Sum(EmissionsValues(body, parse).value))
  {
    var values := EmissionsValues(body, parse);
    if values.Failure? then Failure(values.error)
    else
      var totalEmissions := Sum(values.value);
      CapIsNoOp(totalEmissions);
      Success(CapScore(Num(RawScore(totalEmissions))))
  }

  // ---------------------------------------------------------------------
  // Properties

  /** A 400 reply exactly for an empty request, or one with neither all eight fields nor a breakdown. */
  lemma BadRequestCases(body: Body, parse: string -> Option<real>)
    ensures (Predict(body, parse).Failure? && Predict(body, parse).error.status == BadRequest)
        <==> IsEmptyBody(body) || (!HasDirectFields(body.value) && Get(body.value, "breakdown").None?)
  {
  }

  /** With all eight fields present, a breakdown in the same request is never looked at. */
  lemma DirectFieldsWin(data: Dict<Json>, breakdown: Json, parse: string -> Option<real>)
    requires HasDirectFields(data)
    ensures Predict(Some(Put(data, "breakdown", breakdown)), parse) == Predict(Some(data), parse)
  {
    var data' := Put(data, "breakdown", breakdown);
    DirectKeysAreNotBreakdown();
    assert forall i :: 0 <= i < |DirectKeys| ==> Get(data', DirectKeys[i]) == Get(data, DirectKeys[i]);
    assert HasDirectFields(data');
    FieldValuesAgree(data, data', DirectKeys);
    DirectValues(data, parse);
    DirectValues(data', parse);
  }

  /** Two objects that agree on the given keys yield the same values for them. */
  lemma FieldValuesAgree(d: Dict<Json>, d': Dict<Json>, keys: seq<string>)
    requires forall i :: 0 <= i < |keys| ==> Get(d', keys[i]) == Get(d, keys[i])
    ensures FieldValues(d', keys) == FieldValues(d, keys)
  {
  }

  /** A request with all eight direct fields is read from them alone. */
  lemma DirectValues(data: Dict<Json>, parse: string -> Option<real>)
    requires HasDirectFields(data)
    ensures var floats := ToFloats(FieldValues(data, DirectKeys), parse);
            EmissionsValues(Some(data), parse) ==
              if floats.None? then Failure(HttpError(ServerError, "could not convert to float")) else Success(floats.value)
  {
    assert data != [] by {
      assert Get(data, DirectKeys[0]).Some?;
    }
  }

  /**
   * A request without all eight direct fields but with a breakdown is read
   * from the breakdown: a breakdown that is not an object is a 500 reply;
   * otherwise the figures are the breakdown's entries under the category
   * names (0 for a missing one), converted in order, and the reply is a
   * 500 exactly when one of them does not convert.
   */
  lemma BreakdownValues(data: Dict<Json>, parse: string -> Option<real>)
    requires !HasDirectFields(data) && Get(data, "breakdown").Some?
    ensures var b := Get(data, "breakdown").value;
            var r := EmissionsValues(Some(data), parse);
            (!b.JObj? ==> r.Failure? && r.error.status == ServerError) &&
            (b.JObj? ==> (r.Success? <==> forall i :: 0 <= i < 8 ==> ToFloat(GetOrZero(b.fields, Name(PredictCategories[i])), parse).Some?)) &&
            (b.JObj? && r.Success? ==> forall i :: 0 <= i < 8 ==> r.value[i] == ToFloat(GetOrZero(b.fields, Name(PredictCategories[i])), parse).value) &&
            (r.Failure? ==> r.error.status == ServerError)
  {
    assert data != [] by {
      assert ("breakdown", Get(data, "breakdown").value) in data;
    }
  }

  lemma DirectKeysAreNotBreakdown()
    ensures forall i :: 0 <= i < |DirectKeys| ==> DirectKeys[i] != "breakdown"
  {
  }

  /** The nine categories of a totals map, less the global average: the eight the route adds up. */
  function EightSum(t: map<Category, real>): real
    requires forall c :: c in t
  {
    NineSum(c => t[c]) - t[GlobalAverage]
  }

  /** A totals map written out as a breakdown object, in the order of the totals dictionary. */
  function BreakdownFields(t: map<Category, real>): (d: Dict<Json>)
    requires forall c :: c in t
    ensures |d| == |TotalsKeys|
    ensures forall i :: 0 <= i < |d| ==> d[i] == (Name(TotalsKeys[i]), JNum(t[TotalsKeys[i]]))
  {
    seq(|TotalsKeys|, i requires 0 <= i < |TotalsKeys| => (Name(TotalsKeys[i]), JNum(t[TotalsKeys[i]])))
  }

  /** A request whose only entry is the breakdown object of a totals map. */
  function BreakdownRequest(t: map<Category, real>): Body
    requires forall c :: c in t
  {
    Some([("breakdown", JObj(BreakdownFields(t)))])
  }

  /** No two categories share a name. */
  lemma NamesDistinct()
    ensures forall i, j :: 0 <= i < j < |TotalsKeys| ==> Name(TotalsKeys[i]) != Name(TotalsKeys[j])
  {
  }

  /** Each category's entry of the breakdown object is its total. */
  lemma BreakdownLookup(t: map<Category, real>, i: nat)
    requires forall c :: c in t
    requires i < |TotalsKeys|
    ensures Get(BreakdownFields(t), Name(TotalsKeys[i])) == Some(JNum(t[TotalsKeys[i]]))
  {
    var d := BreakdownFields(t);
    NamesDistinct();
    assert DistinctKeys(d);
    GetDistinct(d, i);
  }

  /**
   * A request carrying only the breakdown of a totals map is scored on the
   * eight categories it reads: everything but the global average.
   */
  lemma BreakdownScore(t: map<Category, real>, parse: string -> Option<real>)
    requires forall c :: c in t
    ensures Predict(BreakdownRequest(t), parse) == Success(RawScore(EightSum(t)))
  {
    var data := BreakdownRequest(t).value;
    assert Get(data, DirectKeys[0]).None?;
    var vs := FieldValues(BreakdownFields(t), BreakdownKeys());
    forall i | 0 <= i < 8
      ensures vs[i] == JNum(t[PredictCategories[i]])
    {
      assert PredictCategories[i] == TotalsKeys[i];
      BreakdownLookup(t, i);
    }
    var xs := ToFloats(vs, parse).value;
    assert Sum(xs) == EightSum(t) by {
      assert forall i :: 0 <= i < 8 ==> xs[i] == t[PredictCategories[i]];
      SumOfEight(xs);
    }
  }

  /** The eight categories of the totals add up to "Total Emissions" less the global average. */
  lemma EightSumOfTotals(d: Dict<Record>)
    ensures EightSum(Totals(d)) == GrandTotal(d) - CategoryTotal(d, GlobalAverage)
  {
    var t := Totals(d);
    assert NineSum(c => t[c]) == NineSum(c => CategoryTotal(d, c));
  }

  lemma SumOfEight(xs: seq<real>)
    requires |xs| == 8
    ensures Sum(xs) == xs[0] + xs[1] + xs[2] + xs[3] + xs[4] + xs[5] + xs[6] + xs[7]
  {
    assert xs[8..] == [];
    SumFrom(xs, 7);
    SumFrom(xs, 6);
    SumFrom(xs, 5);
    SumFrom(xs, 4);
    SumFrom(xs, 3);
    SumFrom(xs, 2);
    SumFrom(xs, 1);
    SumFrom(xs, 0);
    assert xs[0..] == xs;
  }

  lemma SumFrom(xs: seq<real>, i: nat)
    requires i < |xs|
    ensures Sum(xs[i..]) == xs[i] + Sum(xs[i + 1..])
  {
    assert xs[i..][1..] == xs[i + 1..];
  }

  /**
   * Scoring the breakdown of a dish's matched totals never gives a lower
   * score than the dish's own score from the same table: the global
   * average, which the route leaves out, is never negative there.
   */
  lemma BreakdownScoresAtLeastDishScore(ingredients: seq<string>, table: EmissionsTable, sim: Fuzzy.Scorer,
                                         parse: string -> Option<real>)
    requires forall k :: 0 <= k < |table.rows| ==> NonNegativeCells(table.rows[k].cells)
    ensures var t := Totals(MatchIngredients(ingredients, Some(table), sim));
            Predict(BreakdownRequest(t), parse).Success? &&
            Predict(BreakdownRequest(t), parse).value
              >= SustainabilityScore(ingredients, table, sim)
  {
    var d := MatchIngredients(ingredients, Some(table), sim);
    var t := Totals(d);
    BreakdownScore(t, parse);
    MatchedNonNegative(ingredients, Some(table), sim);
    CategoryTotalNonNegative(d, GlobalAverage);
    EightSumOfTotals(d);
    RawScoreNonIncreasing(EightSum(t), GrandTotal(d));
    ScoreOfTotals(ingredients, table, sim);
    assert Predict(BreakdownRequest(t), parse) == Success(RawScore(EightSum(t)));
    assert EightSum(t) <= GrandTotal(d);
    assert RawScore(GrandTotal(d)) == SustainabilityScore(ingredients, table, sim);
  }
}
