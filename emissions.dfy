/**
 * The emissions side of the engine: cleaning ingredient tokens, matching
 * them to products of the emissions table, summing the matched records per
 * category, and turning a total into everyday equivalents.
 */
module Emissions {
  import opened Wrappers
  import opened Text
  import opened Dicts
  import Fuzzy

  // ---------------------------------------------------------------------
  // Categories and tables

  /** The emission columns of the table, and the extra "Total Emissions" slot of the totals. */
  datatype Category =
    | LandUseChange | Feed | Farm | Processing | Transport | Packaging | Retail
    | LandToRetail | GlobalAverage | TotalEmissions

  /** The nine categories a matched record carries, in the source's order. */
  const RecordCategories: seq<Category> :=
    [LandUseChange, Feed, Farm, Processing, Transport, Packaging, Retail, LandToRetail, GlobalAverage]

  /** The ten keys of the totals dictionary, in the source's order. */
  const TotalsKeys: seq<Category> := RecordCategories + [TotalEmissions]

  /** The column (or dictionary key) name of each category. */
  function Name(c: Category): string {
    match c
    case LandUseChange => "Land Use Change"
    case Feed => "Feed"
    case Farm => "Farm"
    case Processing => "Processing"
    case Transport => "Transport"
    case Packaging => "Packaging"
    case Retail => "Retail"
    case LandToRetail => "Total from Land to Retail"
    case GlobalAverage => "Total Global Average GHG Emissions per kg"
    case TotalEmissions => "Total Emissions"
  }

  /** The emissions of one matched product, per category. */
  type Record = map<Category, real>

  /**
   * A row of the emissions table: its "Food product" name and its numeric
   * cells. A category missing from `cells` stands for an absent column or
   * a falsy cell.
   */
  datatype EmissionsRow = EmissionsRow(product: string, cells: map<Category, real>)

  /** The loaded table, and whether it has a "Food product" column at all. */
  datatype EmissionsTable = EmissionsTable(hasProductColumn: bool, rows: seq<EmissionsRow>)

  /** The score a fuzzy match must reach to be accepted. */
  const MatchThreshold := 80

  /** `x.get(key, 0) or 0` on a record or a row, as a number. */
  function Get0(cells: map<Category, real>, c: Category): real {
    if c in cells then cells[c] else 0.0
  }

  lemma CategoryCases(c: Category)
    ensures c == LandUseChange || c == Feed || c == Farm || c == Processing || c == Transport
      || c == Packaging || c == Retail || c == LandToRetail || c == GlobalAverage || c == TotalEmissions
  {
  }

  lemma EveryCategoryIsATotalsKey(c: Category)
    ensures c in TotalsKeys
    ensures c != TotalEmissions <==> c in RecordCategories
  {
  }

  // ---------------------------------------------------------------------
  // clean_ingredient

  predicate IsBracketOrQuote(c: char) {
    c == '[' || c == ']' || c == '"'
  }

  /** `clean_ingredient`: drop every `[`, `]` and `"`, trim, lower-case. */
  function CleanIngredient(ingredient: string): (r: string)
    ensures forall j :: 0 <= j < |r| ==> !IsBracketOrQuote(r[j]) && !IsUpper(r[j])
    ensures IsStripped(r)
  {
    var unquoted := RemoveAll(RemoveAll(RemoveAll(ingredient, '['), ']'), '"');
    StrippedLowerIsClean(unquoted);
    Lower(Strip(unquoted))
  }

  lemma StrippedLowerIsClean(unquoted: string)
    requires forall j :: 0 <= j < |unquoted| ==> !IsBracketOrQuote(unquoted[j])
    ensures var r := Lower(Strip(unquoted));
      (forall j :: 0 <= j < |r| ==> !IsBracketOrQuote(r[j]) && !IsUpper(r[j])) && IsStripped(r)
  {
    var stripped := Strip(unquoted);
    var r := Lower(stripped);
    StripMembers(unquoted);
    forall j | 0 <= j < |r|
      ensures !IsBracketOrQuote(r[j]) && !IsUpper(r[j])
    {
      assert stripped[j] in unquoted;
      LowerCharClasses(stripped[j]);
    }
    if r != [] {
      LowerCharClasses(stripped[0]);
      LowerCharClasses(stripped[|stripped| - 1]);
    }
  }

  /** Cleaning a cleaned token changes nothing. */
  lemma CleanIngredientIdempotent(ingredient: string)
    ensures CleanIngredient(CleanIngredient(ingredient)) == CleanIngredient(ingredient)
  {
    var r := CleanIngredient(ingredient);
    assert forall j :: 0 <= j < |r| ==> r[j] != '[' && r[j] != ']' && r[j] != '"';
    RemoveAllAbsent(r, '[');
    RemoveAllAbsent(r, ']');
    RemoveAllAbsent(r, '"');
    StripStripped(r);
    LowerOfLowerCase(r);
  }

  // ---------------------------------------------------------------------
  // match_ingredients_with_emissions

  /** The "Food product" column, in row order. */
  function Products(rows: seq<EmissionsRow>): (ps: seq<string>)
    ensures |ps| == |rows|
    ensures forall k :: 0 <= k < |rows| ==> ps[k] == rows[k].product
  {
    seq(|rows|, k requires 0 <= k < |rows| => rows[k].product)
  }

  /**
   * The product an ingredient is matched to: the best fuzzy match of the
   * cleaned ingredient among the products, when it scores 80 or more.
   */
  function MatchOne(ingredient: string, rows: seq<EmissionsRow>, sim: Fuzzy.Scorer): Option<string> {
    var best := Fuzzy.ExtractOne(sim, CleanIngredient(ingredient), Products(rows));
    if best.Some? && best.value.score >= MatchThreshold then Some(best.value.choice) else None
  }

  /**
   * An ingredient is matched exactly when some product scores 80 or more
   * against the cleaned ingredient, and then to a product no other scores above.
   */
  lemma MatchOneSpec(ingredient: string, rows: seq<EmissionsRow>, sim: Fuzzy.Scorer)
    ensures var m := MatchOne(ingredient, rows, sim);
      (m.Some? ==> m.value in Products(rows)) &&
      (m.Some? <==>
        exists k :: 0 <= k < |rows| && sim(CleanIngredient(ingredient), rows[k].product) >= MatchThreshold) &&
      (m.Some? ==> sim(CleanIngredient(ingredient), m.value) >= MatchThreshold) &&
      (m.Some? ==> forall k :: 0 <= k < |rows| ==>
        sim(CleanIngredient(ingredient), rows[k].product) <= sim(CleanIngredient(ingredient), m.value))
  {
    assert forall k :: 0 <= k < |rows| ==> rows[k].product in Products(rows);
  }

  /** `loc[product == name].iloc[0]`: the position of the first row with that product. */
  function FirstRowIndex(product: string, rows: seq<EmissionsRow>): (k: nat)
    requires product in Products(rows)
    ensures k < |rows| && rows[k].product == product
    ensures forall j :: 0 <= j < k ==> rows[j].product != product
  {
    if rows[0].product == product then 0
    else
      assert Products(rows)[1..] == Products(rows[1..]);
      1 + FirstRowIndex(product, rows[1..])
  }

  /** The record built from a row: exactly the nine categories, an absent cell read as 0. */
  function RecordOf(row: EmissionsRow): (rec: Record)
    ensures forall c :: c in rec <==> c in RecordCategories
    ensures forall c :: c in rec ==> rec[c] == Get0(row.cells, c)
  {
    map c | c in RecordCategories :: Get0(row.cells, c)
  }

  /** The record stored for a matched product: the one of the first row with that product. */
  function ProductRecord(product: string, rows: seq<EmissionsRow>): Record {
    if rows == [] then map[]
    else if rows[0].product == product then RecordOf(rows[0])
    else ProductRecord(product, rows[1..])
  }

  lemma {:induction false} ProductRecordIsFirstRow(product: string, rows: seq<EmissionsRow>)
    requires product in Products(rows)
    ensures ProductRecord(product, rows) == RecordOf(rows[FirstRowIndex(product, rows)])
  {
    if rows[0].product != product {
      assert Products(rows)[1..] == Products(rows[1..]);
      ProductRecordIsFirstRow(product, rows[1..]);
    }
  }

  /** The product each ingredient is matched to, if any, in order. */
  function MatchesOf(ingredients: seq<string>, rows: seq<EmissionsRow>, sim: Fuzzy.Scorer): (ms: seq<Option<string>>)
    ensures |ms| == |ingredients|
    ensures forall i :: 0 <= i < |ingredients| ==> ms[i] == MatchOne(ingredients[i], rows, sim)
  {
    seq(|ingredients|, i requires 0 <= i < |ingredients| => MatchOne(ingredients[i], rows, sim))
  }

  /**
   * The dictionary filled from a run of match outcomes: a match stores the
   * record of its product under the product's name, a miss stores nothing.
   */
  function Collect(ms: seq<Option<string>>, rows: seq<EmissionsRow>): Dict<Record> {
    if ms == [] then []
    else
      var before := Collect(ms[..|ms| - 1], rows);
      match ms[|ms| - 1]
      case None => before
      case Some(product) => Put(before, product, ProductRecord(product, rows))
  }

  /** What `match_ingredients_with_emissions` returns. */
  function MatchIngredients(ingredients: seq<string>, dataset: Option<EmissionsTable>, sim: Fuzzy.Scorer): (d: Dict<Record>)
    ensures dataset.None? ==> d == []
    ensures dataset.Some? && !dataset.value.hasProductColumn ==> d == []
  {
    if dataset.None? || !dataset.value.hasProductColumn then []
    else Collect(MatchesOf(ingredients, dataset.value.rows, sim), dataset.value.rows)
  }

  /** `match_ingredients_with_emissions`: one fuzzy lookup per ingredient, filling a dictionary. */
  method MatchIngredientsWithEmissions(ingredients: seq<string>, dataset: Option<EmissionsTable>, sim: Fuzzy.Scorer)
    returns (matchedIngredients: Dict<Record>)
    ensures matchedIngredients == MatchIngredients(ingredients, dataset, sim)
  {
    if dataset.None? {
      return [];
    }
    if !dataset.value.hasProductColumn {
      return [];
    }
    var rows := dataset.value.rows;
    ghost var ms := MatchesOf(ingredients, rows, sim);
    matchedIngredients := [];
    for i := 0 to |ingredients|
      invariant matchedIngredients == Collect(ms[..i], rows)
    {
      var cleanedIngredient := CleanIngredient(ingredients[i]);
      var best := Fuzzy.ExtractOne(sim, cleanedIngredient, Products(rows));
      assert ms[i] == if best.Some? && best.value.score >= MatchThreshold then Some(best.value.choice) else None;
      CollectStep(ms, i, rows);
      if best.Some? && best.value.score >= MatchThreshold {
        var matchedData := rows[FirstRowIndex(best.value.choice, rows)];
        ProductRecordIsFirstRow(best.value.choice, rows);
        matchedIngredients := Put(matchedIngredients, best.value.choice, RecordOf(matchedData));
      }
    }
    assert ms[..|ingredients|] == ms;
  }

  /** One more outcome: a miss leaves the dictionary alone, a match assigns its product's record. */
  lemma CollectStep(ms: seq<Option<string>>, i: nat, rows: seq<EmissionsRow>)
    requires i < |ms|
    ensures Collect(ms[..i + 1], rows) ==
      match ms[i]
      case None => Collect(ms[..i], rows)
      case Some(p) => Put(Collect(ms[..i], rows), p, ProductRecord(p, rows))
  {
    assert ms[..i + 1][..i] == ms[..i];
  }

  /** Misses add nothing, so there are never more entries than outcomes. */
  lemma {:induction false} CollectSize(ms: seq<Option<string>>, rows: seq<EmissionsRow>)
    ensures |Collect(ms, rows)| <= |ms|
  {
    if ms != [] {
      var before := Collect(ms[..|ms| - 1], rows);
      CollectSize(ms[..|ms| - 1], rows);
      match ms[|ms| - 1]
      case None =>
      case Some(product) =>
        PutKeys(before, product, ProductRecord(product, rows));
        assert |Keys(Put(before, product, ProductRecord(product, rows)))| <= |Keys(before)| + 1;
    }
  }

  /** No product is a key twice. */
  lemma {:induction false} CollectKeysDistinct(ms: seq<Option<string>>, rows: seq<EmissionsRow>)
    ensures DistinctKeys(Collect(ms, rows))
  {
    if ms != [] {
      var before := Collect(ms[..|ms| - 1], rows);
      CollectKeysDistinct(ms[..|ms| - 1], rows);
      match ms[|ms| - 1]
      case None =>
      case Some(product) =>
        PutKeepsKeysDistinct(before, product, ProductRecord(product, rows));
    }
  }

  /** The keys are exactly the products matched. */
  lemma {:induction false} CollectKeys(ms: seq<Option<string>>, rows: seq<EmissionsRow>, product: string)
    ensures product in Keys(Collect(ms, rows)) <==> Some(product) in ms
  {
    if ms != [] {
      var front := ms[..|ms| - 1];
      var before := Collect(front, rows);
      CollectKeys(front, rows, product);
      assert ms == front + [ms[|ms| - 1]];
      match ms[|ms| - 1]
      case None =>
      case Some(p) =>
        assert Collect(ms, rows) == Put(before, p, ProductRecord(p, rows));
        PutKeys(before, p, ProductRecord(p, rows));
    }
  }

  /** Whichever outcome stored it last, a product's value is its own record. */
  lemma {:induction false} CollectValues(ms: seq<Option<string>>, rows: seq<EmissionsRow>, product: string)
    requires product in Keys(Collect(ms, rows))
    ensures Get(Collect(ms, rows), product) == Some(ProductRecord(product, rows))
  {
    var front := ms[..|ms| - 1];
    var before := Collect(front, rows);
    match ms[|ms| - 1]
    case None =>
      CollectValues(front, rows, product);
    case Some(p) =>
      if p != product {
        assert Get(before, product).Some?;
        CollectValues(front, rows, product);
      }
  }

  /** Unmatched ingredients are dropped, so the dictionary has at most one entry per ingredient. */
  lemma MatchedSize(ingredients: seq<string>, dataset: Option<EmissionsTable>, sim: Fuzzy.Scorer)
    ensures |MatchIngredients(ingredients, dataset, sim)| <= |ingredients|
  {
    if dataset.Some? && dataset.value.hasProductColumn {
      CollectSize(MatchesOf(ingredients, dataset.value.rows, sim), dataset.value.rows);
    }
  }

  /** No product is a key twice. */
  lemma MatchedKeysDistinct(ingredients: seq<string>, dataset: Option<EmissionsTable>, sim: Fuzzy.Scorer)
    ensures DistinctKeys(MatchIngredients(ingredients, dataset, sim))
  {
    if dataset.Some? && dataset.value.hasProductColumn {
      CollectKeysDistinct(MatchesOf(ingredients, dataset.value.rows, sim), dataset.value.rows);
    }
  }

  /**
   * The keys are exactly the products some ingredient matched: matched
   * "Food product" names, not the ingredient strings.
   */
  lemma MatchedKeys(ingredients: seq<string>, table: EmissionsTable, sim: Fuzzy.Scorer, product: string)
    requires table.hasProductColumn
    ensures product in Keys(MatchIngredients(ingredients, Some(table), sim)) <==>
      exists i :: 0 <= i < |ingredients| && MatchOne(ingredients[i], table.rows, sim) == Some(product)
  {
    var ms := MatchesOf(ingredients, table.rows, sim);
    assert MatchIngredients(ingredients, Some(table), sim) == Collect(ms, table.rows);
    CollectKeys(ms, table.rows, product);
    if Some(product) in ms {
      var i :| 0 <= i < |ms| && ms[i] == Some(product);
      assert MatchOne(ingredients[i], table.rows, sim) == Some(product);
    } else {
      forall i | 0 <= i < |ingredients|
        ensures MatchOne(ingredients[i], table.rows, sim) != Some(product)
      {
        assert ms[i] == MatchOne(ingredients[i], table.rows, sim);
      }
    }
  }

  /**
   * A matched product's record is the one built from the first row with
   * that product, whichever ingredient matched it last.
   */
  lemma MatchedValues(ingredients: seq<string>, table: EmissionsTable, sim: Fuzzy.Scorer, product: string)
    requires table.hasProductColumn
    requires product in Keys(MatchIngredients(ingredients, Some(table), sim))
    ensures product in Products(table.rows)
    ensures Get(MatchIngredients(ingredients, Some(table), sim), product) ==
      Some(RecordOf(table.rows[FirstRowIndex(product, table.rows)]))
  {
    var ms := MatchesOf(ingredients, table.rows, sim);
    CollectKeys(ms, table.rows, product);
    var i :| 0 <= i < |ms| && ms[i] == Some(product);
    MatchOneSpec(ingredients[i], table.rows, sim);
    CollectValues(ms, table.rows, product);
    ProductRecordIsFirstRow(product, table.rows);
  }

  /** A later ingredient matching a product already present leaves the keys as they were. */
  lemma RepeatedMatchKeepsKeys(ms: seq<Option<string>>, rows: seq<EmissionsRow>, product: string)
    requires product in Keys(Collect(ms, rows))
    ensures Keys(Collect(ms + [Some(product)], rows)) == Keys(Collect(ms, rows))
  {
    assert (ms + [Some(product)])[..|ms|] == ms;
    PutKeys(Collect(ms, rows), product, ProductRecord(product, rows));
  }

  // ---------------------------------------------------------------------
  // calculate_total_impact

  /** The sum of one category over all records, in dictionary order. */
  function CategoryTotal(d: Dict<Record>, c: Category): real {
    if d == [] then 0.0 else CategoryTotal(d[..|d| - 1], c) + Get0(d[|d| - 1].1, c)
  }

  /** The nine record categories of a per-category function, added up. */
  function NineSum(f: Category -> real): real {
    f(LandUseChange) + f(Feed) + f(Farm) + f(Processing) + f(Transport)
      + f(Packaging) + f(Retail) + f(LandToRetail) + f(GlobalAverage)
  }

  /** "Total Emissions": the sum of the nine category totals. */
  function GrandTotal(d: Dict<Record>): real {
    NineSum(c => CategoryTotal(d, c))
  }

  /** The totals dictionary `calculate_total_impact` returns. */
  function Totals(d: Dict<Record>): (t: map<Category, real>)
    ensures forall c :: c in t
    ensures t[TotalEmissions] == GrandTotal(d)
    ensures forall c :: c != TotalEmissions ==> t[c] == CategoryTotal(d, c)
  {
    assert forall c :: c in TotalsKeys by {
      forall c { EveryCategoryIsATotalsKey(c); }
    }
    map c | c in TotalsKeys :: TotalOf(d, c)
  }

  /** One entry of the totals dictionary. */
  function TotalOf(d: Dict<Record>, c: Category): real {
    if c == TotalEmissions then GrandTotal(d) else CategoryTotal(d, c)
  }

  /** A map holding every category's total, and "Total Emissions" as their sum, is the totals dictionary. */
  lemma TotalsExtensional(t: map<Category, real>, d: Dict<Record>)
    requires forall c :: c in t
    requires forall c :: c != TotalEmissions ==> t[c] == CategoryTotal(d, c)
    requires t[TotalEmissions] == GrandTotal(d)
    ensures t == Totals(d)
  {
    var u := Totals(d);
    forall c
      ensures c in t.Keys <==> c in u.Keys
    {
    }
    forall c
      ensures t[c] == u[c]
    {
      if c != TotalEmissions {
        assert t[c] == CategoryTotal(d, c);
      }
    }
  }

  /** The inner loop of `calculate_total_impact`: one record added into the totals, key by key. */
  lemma TotalsKeysDistinct()
    ensures forall i, j :: 0 <= i < j < |TotalsKeys| ==> TotalsKeys[i] != TotalsKeys[j]
  {
  }

  method AddRecord(totals: map<Category, real>, data: Record) returns (updated: map<Category, real>)
    requires forall c :: c in totals
    ensures forall c :: c in updated && updated[c] == totals[c] + Get0(data, c)
  {
    updated := totals;
    for j := 0 to |TotalsKeys|
      invariant forall c :: c in updated
      invariant forall c :: c in TotalsKeys[..j] ==> updated[c] == totals[c] + Get0(data, c)
      invariant forall c :: c !in TotalsKeys[..j] ==> updated[c] == totals[c]
    {
      var key := TotalsKeys[j];
      assert TotalsKeys[..j + 1] == TotalsKeys[..j] + [key];
      assert key !in TotalsKeys[..j] by {
        TotalsKeysDistinct();
      }
      updated := updated[key := updated[key] + Get0(data, key)];
    }
    assert TotalsKeys[..|TotalsKeys|] == TotalsKeys;
    forall c
      ensures updated[c] == totals[c] + Get0(data, c)
    {
      EveryCategoryIsATotalsKey(c);
    }
  }

  /**
   * `calculate_total_impact`: a zeroed totals dictionary, each record added
   * into it key by key, then "Total Emissions" set to the sum of the nine
   * category totals.
   */
  method CalculateTotalImpact(matchedIngredients: Dict<Record>) returns (totals: map<Category, real>, totalEmissions: real)
    ensures totals == Totals(matchedIngredients)
    ensures totalEmissions == totals[TotalEmissions]
  {
    totals := map[LandUseChange := 0.0, Feed := 0.0, Farm := 0.0, Processing := 0.0, Transport := 0.0,
                  Packaging := 0.0, Retail := 0.0, LandToRetail := 0.0, GlobalAverage := 0.0,
                  TotalEmissions := 0.0];
    forall c
      ensures c in totals && totals[c] == 0.0
    {
      CategoryCases(c);
    }
    if |matchedIngredients| == 0 {
      TotalsExtensional(totals, matchedIngredients);
      return totals, 0.0;
    }
    assert matchedIngredients[..0] == [];
    for i := 0 to |matchedIngredients|
      invariant forall c :: c in totals && totals[c] == CategoryTotal(matchedIngredients[..i], c)
    {
      totals := AddRecord(totals, matchedIngredients[i].1);
      CategoryTotalStep(matchedIngredients, i);
    }
    assert matchedIngredients[..|matchedIngredients|] == matchedIngredients;
    WithGrandTotal(totals, matchedIngredients);
    totals := totals[TotalEmissions := totals[LandUseChange] + totals[Feed] + totals[Farm] + totals[Processing]
                      + totals[Transport] + totals[Packaging] + totals[Retail] + totals[LandToRetail]
                      + totals[GlobalAverage]];
    totalEmissions := totals[TotalEmissions];
  }

  lemma CategoryTotalStep(d: Dict<Record>, i: nat)
    requires i < |d|
    ensures forall c :: CategoryTotal(d[..i + 1], c) == CategoryTotal(d[..i], c) + Get0(d[i].1, c)
  {
    assert d[..i + 1][..i] == d[..i];
  }

  /** Storing the sum of the nine category totals under "Total Emissions" completes the totals dictionary. */
  lemma WithGrandTotal(t: map<Category, real>, d: Dict<Record>)
    requires forall c :: c in t && t[c] == CategoryTotal(d, c)
    ensures t[TotalEmissions := t[LandUseChange] + t[Feed] + t[Farm] + t[Processing] + t[Transport]
      + t[Packaging] + t[Retail] + t[LandToRetail] + t[GlobalAverage]] == Totals(d)
  {
    var sum := t[LandUseChange] + t[Feed] + t[Farm] + t[Processing] + t[Transport]
      + t[Packaging] + t[Retail] + t[LandToRetail] + t[GlobalAverage];
    GrandTotalUnfolded(d);
    assert sum == GrandTotal(d);
    var u := t[TotalEmissions := sum];
    assert forall c :: c in u;
    assert forall c :: c != TotalEmissions ==> u[c] == CategoryTotal(d, c);
    TotalsExtensional(u, d);
  }

  lemma GrandTotalUnfolded(d: Dict<Record>)
    ensures GrandTotal(d) == CategoryTotal(d, LandUseChange) + CategoryTotal(d, Feed) + CategoryTotal(d, Farm)
      + CategoryTotal(d, Processing) + CategoryTotal(d, Transport) + CategoryTotal(d, Packaging)
      + CategoryTotal(d, Retail) + CategoryTotal(d, LandToRetail) + CategoryTotal(d, GlobalAverage)
  {
  }

  /** No matched ingredient: every total, "Total Emissions" included, is zero. */
  lemma EmptyTotals()
    ensures forall c :: Totals([])[c] == 0.0
  {
  }

  /** The nine categories of one record, added up. */
  function RecordSum(rec: Record): real {
    NineSum(c => Get0(rec, c))
  }

  /** The records' own nine-category sums, added up in dictionary order. */
  function SumOfRecordSums(d: Dict<Record>): real {
    if d == [] then 0.0 else SumOfRecordSums(d[..|d| - 1]) + RecordSum(d[|d| - 1].1)
  }

  /** Summing per category first or per record first gives the same "Total Emissions". */
  lemma {:induction false} GrandTotalIsSumOfRecords(d: Dict<Record>)
    ensures GrandTotal(d) == SumOfRecordSums(d)
  {
    if d != [] {
      GrandTotalIsSumOfRecords(d[..|d| - 1]);
    }
  }

  predicate NonNegativeCells(cells: map<Category, real>) {
    forall c :: c in cells ==> cells[c] >= 0.0
  }

  /** Non-negative records give non-negative totals. */
  lemma {:induction false} TotalsNonNegative(d: Dict<Record>)
    requires forall i :: 0 <= i < |d| ==> NonNegativeCells(d[i].1)
    ensures forall c :: Totals(d)[c] >= 0.0
  {
    forall c
      ensures CategoryTotal(d, c) >= 0.0
    {
      CategoryTotalNonNegative(d, c);
    }
  }

  lemma {:induction false} CategoryTotalNonNegative(d: Dict<Record>, c: Category)
    requires forall i :: 0 <= i < |d| ==> NonNegativeCells(d[i].1)
    ensures CategoryTotal(d, c) >= 0.0
  {
    if d != [] {
      var front := d[..|d| - 1];
      assert forall i :: 0 <= i < |front| ==> front[i] == d[i];
      CategoryTotalNonNegative(front, c);
    }
  }

  /** A table with non-negative cells yields matched records with non-negative values. */
  lemma MatchedNonNegative(ingredients: seq<string>, dataset: Option<EmissionsTable>, sim: Fuzzy.Scorer)
    requires dataset.Some? ==> forall k :: 0 <= k < |dataset.value.rows| ==> NonNegativeCells(dataset.value.rows[k].cells)
    ensures forall i :: 0 <= i < |MatchIngredients(ingredients, dataset, sim)| ==>
      NonNegativeCells(MatchIngredients(ingredients, dataset, sim)[i].1)
  {
    if dataset.Some? && dataset.value.hasProductColumn {
      var rows := dataset.value.rows;
      var ms := MatchesOf(ingredients, rows, sim);
      var d := Collect(ms, rows);
      CollectKeysDistinct(ms, rows);
      forall i | 0 <= i < |d|
        ensures NonNegativeCells(d[i].1)
      {
        assert Keys(d)[i] == d[i].0;
        CollectValues(ms, rows, d[i].0);
        GetDistinct(d, i);
        ProductRecordNonNegative(d[i].0, rows);
      }
    }
  }

  lemma {:induction false} ProductRecordNonNegative(product: string, rows: seq<EmissionsRow>)
    requires forall k :: 0 <= k < |rows| ==> NonNegativeCells(rows[k].cells)
    ensures NonNegativeCells(ProductRecord(product, rows))
  {
    if rows != [] && rows[0].product != product {
      ProductRecordNonNegative(product, rows[1..]);
    }
  }

  /** With distinct keys, looking up the key at a position finds that position's value. */
  lemma {:induction false} GetDistinct<V>(d: Dict<V>, i: nat)
    requires DistinctKeys(d) && i < |d|
    ensures Get(d, d[i].0) == Some(d[i].1)
  {
    if i > 0 {
      assert DistinctKeys(d[1..]);
      assert d[1..][i - 1] == d[i];
      GetDistinct(d[1..], i - 1);
    }
  }

  // ---------------------------------------------------------------------
  // calculate_emissions_equivalence

  /** Python's `round(x)`: the nearest integer, a tie going to the even one. */
  function RoundHalfEven(x: real): (r: int)
    ensures x - 1.0 / 2.0 <= r as real <= x + 1.0 / 2.0
    ensures (r as real == x - 1.0 / 2.0 || r as real == x + 1.0 / 2.0) ==> r % 2 == 0
  {
    var f := x.Floor;
    var frac := x - f as real;
    if frac < 1.0 / 2.0 then f
    else if frac > 1.0 / 2.0 then f + 1
    else if f % 2 == 0 then f
    else f + 1
  }

  function Pow10(n: nat): (p: real)
    ensures p >= 1.0
  {
    if n == 0 then 1.0 else 10.0 * Pow10(n - 1)
  }

  /**
   * `r` is the multiple of 1/p nearest to `x`, a tie going to the even
   * multiple: `r * p` is an integer within one half of `x * p`, and even
   * when it is exactly one half away.
   */
  predicate NearestOnGrid(r: real, x: real, p: real) {
    var k := (r * p).Floor;
    k as real == r * p &&
    x * p - 1.0 / 2.0 <= k as real <= x * p + 1.0 / 2.0 &&
    ((k as real == x * p - 1.0 / 2.0 || k as real == x * p + 1.0 / 2.0) ==> k % 2 == 0)
  }

  /** There is only one nearest multiple of 1/p once ties go to the even one. */
  lemma NearestOnGridUnique(r1: real, r2: real, x: real, p: real)
    requires p > 0.0
    requires NearestOnGrid(r1, x, p) && NearestOnGrid(r2, x, p)
    ensures r1 == r2
  {
    NearestIntegerUnique((r1 * p).Floor, (r2 * p).Floor, x * p);
    assert r1 * p == r2 * p;
  }

  lemma NearestIntegerUnique(k1: int, k2: int, y: real)
    requires y - 1.0 / 2.0 <= k1 as real <= y + 1.0 / 2.0 && y - 1.0 / 2.0 <= k2 as real <= y + 1.0 / 2.0
    requires (k1 as real == y - 1.0 / 2.0 || k1 as real == y + 1.0 / 2.0) ==> k1 % 2 == 0
    requires (k2 as real == y - 1.0 / 2.0 || k2 as real == y + 1.0 / 2.0) ==> k2 % 2 == 0
    ensures k1 == k2
  {
  }

  /** Python's `round(x, n)`: the nearest multiple of 10^-n, a tie going to the even multiple. */
  function RoundDigits(x: real, n: nat): (r: real)
    ensures x - 1.0 / (2.0 * Pow10(n)) <= r <= x + 1.0 / (2.0 * Pow10(n))
    ensures NearestOnGrid(r, x, Pow10(n))
  {
    RoundToGrid(x, Pow10(n))
  }

  /** Ties go to the even multiple: `round(0.125, 2)` is 0.12 and `round(2.5)` is 2, while `round(0.375, 2)` is 0.38. */
  lemma TiesToEven()
    ensures RoundDigits(0.125, 2) == 0.12
    ensures RoundDigits(2.5, 0) == 2.0
    ensures RoundDigits(0.375, 2) == 0.38
  {
    assert Pow10(2) == 100.0 && Pow10(0) == 1.0;
    assert NearestOnGrid(0.12, 0.125, 100.0);
    NearestOnGridUnique(RoundDigits(0.125, 2), 0.12, 0.125, 100.0);
    assert NearestOnGrid(2.0, 2.5, 1.0);
    NearestOnGridUnique(RoundDigits(2.5, 0), 2.0, 2.5, 1.0);
    assert NearestOnGrid(0.38, 0.375, 100.0);
    NearestOnGridUnique(RoundDigits(0.375, 2), 0.38, 0.375, 100.0);
  }

  /** `round(x, 3)` is within half a thousandth of `x`. */
  lemma RoundThreeWithin(x: real)
    ensures x - 1.0 / 2000.0 <= RoundDigits(x, 3) <= x + 1.0 / 2000.0
  {
    assert Pow10(3) == 1000.0;
  }

  /** `round(x, 2)` is within half a hundredth of `x`. */
  lemma RoundTwoWithin(x: real)
    ensures x - 1.0 / 200.0 <= RoundDigits(x, 2) <= x + 1.0 / 200.0
  {
    assert Pow10(2) == 100.0;
  }

  /** The nearest multiple of 1/p, a tie going to the even multiple. */
  function RoundToGrid(x: real, p: real): (r: real)
    requires p >= 1.0
    ensures x - 1.0 / (2.0 * p) <= r <= x + 1.0 / (2.0 * p)
    ensures NearestOnGrid(r, x, p)
  {
    var k := RoundHalfEven(x * p);
    ScaledBounds(x, p, k as real);
    GridPoint(k, p, x);
    k as real / p
  }

  /** The k-th multiple of 1/p is the nearest on the grid to `x` when k is the nearest integer to `x * p`. */
  lemma GridPoint(k: int, p: real, x: real)
    requires p >= 1.0
    requires x * p - 1.0 / 2.0 <= k as real <= x * p + 1.0 / 2.0
    requires (k as real == x * p - 1.0 / 2.0 || k as real == x * p + 1.0 / 2.0) ==> k % 2 == 0
    ensures NearestOnGrid(k as real / p, x, p)
  {
    assert (k as real / p) * p == k as real;
    assert ((k as real / p) * p).Floor == k;
  }

  lemma ScaledBounds(x: real, p: real, y: real)
    requires p >= 1.0
    requires x * p - 1.0 / 2.0 <= y <= x * p + 1.0 / 2.0
    ensures x - 1.0 / (2.0 * p) <= y / p <= x + 1.0 / (2.0 * p)
  {
    var e := y - x * p;
    assert y / p == x + e / p;
    assert -1.0 / 2.0 <= e <= 1.0 / 2.0;
    assert 1.0 / (2.0 * p) == (1.0 / 2.0) / p;
    assert e / p <= (1.0 / 2.0) / p;
    assert -(1.0 / 2.0) / p <= e / p;
  }

  /** A value already on the grid of 1/p is not moved by rounding. */
  lemma RoundToGridExact(x: real, p: real, k: int)
    requires p >= 1.0 && x * p == k as real
    ensures RoundToGrid(x, p) == x
  {
    RoundExact(k);
    assert RoundHalfEven(x * p) == k;
  }

  /** Rounding never takes a non-negative value below zero. */
  lemma RoundDigitsNonNegative(x: real, n: nat)
    requires x >= 0.0
    ensures RoundDigits(x, n) >= 0.0
  {
    RoundToGridNonNegative(x, Pow10(n));
  }

  lemma RoundToGridNonNegative(x: real, p: real)
    requires x >= 0.0 && p >= 1.0
    ensures RoundToGrid(x, p) >= 0.0
  {
    assert x * p >= 0.0;
    assert RoundHalfEven(x * p) >= 0;
  }

  /** The four everyday equivalents of a total. */
  datatype Equivalence = Equivalence(carDistance: real, smartphoneCharges: real, plasticBags: real, ledBulbHours: real)

  /** What is returned for a total that is not a positive number. */
  const Placeholder := Equivalence(0.1, 1.0, 1.0, 1.0)

  /**
   * `calculate_emissions_equivalence`: 4.5 km of driving, 122 phone
   * charges, 20 plastic bags and 10 LED-bulb hours per kg CO2e, rounded.
   */
  function EmissionsEquivalence(totalEmissions: PyNumber): (e: Equivalence)
    ensures (totalEmissions.NonNumeric? || totalEmissions.value <= 0.0) ==> e == Placeholder
    ensures totalEmissions.Num? && totalEmissions.value > 0.0 ==>
      var t := totalEmissions.value;
      t * 4.5 - 0.05 <= e.carDistance <= t * 4.5 + 0.05 &&
      t * 122.0 - 0.5 <= e.smartphoneCharges <= t * 122.0 + 0.5 &&
      t * 20.0 - 0.5 <= e.plasticBags <= t * 20.0 + 0.5 &&
      t * 10.0 - 0.5 <= e.ledBulbHours <= t * 10.0 + 0.5
    ensures totalEmissions.Num? && totalEmissions.value > 0.0 ==>
      var t := totalEmissions.value;
      NearestOnGrid(e.carDistance, t * 4.5, 10.0) &&
      NearestOnGrid(e.smartphoneCharges, t * 122.0, 1.0) &&
      NearestOnGrid(e.plasticBags, t * 20.0, 1.0) &&
      NearestOnGrid(e.ledBulbHours, t * 10.0, 1.0)
  {
    if totalEmissions.NonNumeric? || totalEmissions.value <= 0.0 then Placeholder
    else
      var t := totalEmissions.value;
      assert Pow10(0) == 1.0 && Pow10(1) == 10.0;
      Equivalence(RoundDigits(t * 4.5, 1), RoundDigits(t * 122.0, 0),
                  RoundDigits(t * 20.0, 0), RoundDigits(t * 10.0, 0))
  }

  /** One kilogram is exactly the conversion factors. */
  lemma OneKilogram()
    ensures EmissionsEquivalence(Num(1.0)) == Equivalence(4.5, 122.0, 20.0, 10.0)
  {
    WholeKilograms(1);
  }

  /** A whole number of kilograms is converted without rounding. */
  lemma WholeKilograms(n: nat)
    requires n > 0
    ensures EmissionsEquivalence(Num(n as real)) ==
      Equivalence(4.5 * n as real, 122.0 * n as real, 20.0 * n as real, 10.0 * n as real)
  {
    var t := n as real;
    assert Pow10(1) == 10.0;
    RoundToGridExact(t * 4.5, 10.0, 45 * n);
    RoundToGridExact(t * 122.0, 1.0, 122 * n);
    RoundToGridExact(t * 20.0, 1.0, 20 * n);
    RoundToGridExact(t * 10.0, 1.0, 10 * n);
  }

  lemma RoundExact(k: int)
    ensures RoundHalfEven(k as real) == k
  {
  }
}
