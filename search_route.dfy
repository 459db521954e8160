/**
 * The decision logic of the `/search` route: the query check, the
 * re-cleaning of the extracted ingredient lists, and the pairing of each
 * list with its recipe title.
 */
module SearchRoute {
  import opened Wrappers
  import opened Text
  import opened Dicts
  import opened Http
  import opened PyRepr
  import opened Ingredients
  import Fuzzy

  // ---------------------------------------------------------------------
  // The query

  /** `data["query"]` when the body has that key and it holds a string. */
  function QueryText(body: Body): Option<string> {
    if body.Some? && Get(body.value, "query").Some? && Get(body.value, "query").value.JStr? then
      Some(Get(body.value, "query").value.s)
    else None
  }

  /**
   * The query check: a missing or non-string query, or one that is blank,
   * is a 400 reply; otherwise the query with surrounding whitespace removed.
   */
  function ValidateQuery(body: Body): (r: Result<string, HttpError>)
    ensures r.Failure? ==> r.error.status == BadRequest
    ensures r.Success? <==> QueryText(body).Some? && HasNonSpace(QueryText(body).value)
    ensures r.Success? ==> r.value != [] && IsStripped(r.value) && r.value == Strip(QueryText(body).value)
  {
    if IsEmptyBody(body) || QueryText(body).None? then Failure(HttpError(BadRequest, "Invalid request format"))
    else
      var query := Strip(QueryText(body).value);
      if query == [] then Failure(HttpError(BadRequest, "Query cannot be empty"))
      else Success(query)
  }

  /** An empty or missing body is refused with 400. */
  lemma EmptyBodyRejected(body: Body)
    requires IsEmptyBody(body)
    ensures ValidateQuery(body).Failure? && ValidateQuery(body).error.status == BadRequest
  {
  }

  // ---------------------------------------------------------------------
  // Re-cleaning

  /** Lines 65-66 on a text: drop other characters, then every double quote and square bracket. */
  function CleanText(s: string): (r: string)
    ensures forall j :: 0 <= j < |r| ==> IsNerChar(r[j])
  {
    var kept := Filter(s, IsNerChar);
    FilterMembers(s, IsNerChar);
    var r := RemoveAll(RemoveAll(RemoveAll(kept, '"'), '['), ']');
    assert forall j :: 0 <= j < |r| ==> r[j] in kept;
    r
  }

  lemma CleanTextKeepsClean(s: string)
    requires forall j :: 0 <= j < |s| ==> IsNerChar(s[j])
    ensures CleanText(s) == s
  {
    FilterKeepsAll(s, IsNerChar);
    RemoveAllAbsent(s, '"');
    RemoveAllAbsent(s, '[');
    RemoveAllAbsent(s, ']');
  }

  /** Each piece with its surrounding whitespace removed. */
  function StripAll(parts: seq<string>): seq<string> {
    Each(parts, Strip)
  }

  /** `f` applied to each piece, in order. */
  function Each(parts: seq<string>, f: string -> string): seq<string> {
    seq(|parts|, i requires 0 <= i < |parts| => f(parts[i]))
  }

  /** An entry the re-cleaning produces: word characters and whitespace only, trimmed. */
  predicate IsEntry(e: string) {
    IsStripped(e) && forall j :: 0 <= j < |e| ==> IsWordChar(e[j]) || IsSpace(e[j])
  }

  /** A text cut at its commas, each piece trimmed. */
  function Entries(cleaned: string): (entries: seq<string>)
    ensures |entries| == Count(cleaned, ',') + 1
  {
    StripAll(SplitOn(cleaned, ','))
  }

  /** The pieces of a cleaned text are entries. */
  lemma EntriesOfCleanText(cleaned: string)
    requires forall j :: 0 <= j < |cleaned| ==> IsNerChar(cleaned[j])
    ensures forall i :: 0 <= i < |Entries(cleaned)| ==> IsEntry(Entries(cleaned)[i])
  {
    var parts := SplitOn(cleaned, ',');
    var entries := StripAll(parts);
    SplitOnMembers(cleaned, ',');
    forall i | 0 <= i < |entries|
      ensures IsEntry(entries[i])
    {
      PieceIsEntry(parts[i], cleaned);
    }
  }

  lemma PieceIsEntry(piece: string, cleaned: string)
    requires forall j :: 0 <= j < |cleaned| ==> IsNerChar(cleaned[j])
    requires ',' !in piece
    requires forall j :: 0 <= j < |piece| ==> piece[j] in cleaned
    ensures IsEntry(Strip(piece))
  {
    var e := Strip(piece);
    StripMembers(piece);
    forall j | 0 <= j < |e|
      ensures IsWordChar(e[j]) || IsSpace(e[j])
    {
      assert e[j] in piece;
    }
  }

  /**
   * Lines 64-69 as written: the list is turned into its `str()` text, that
   * text is cleaned, cut at commas and each piece trimmed. No entry holds a
   * square bracket, a double quote or a comma.
   */
  function ReCleanAsWritten(ingredients: seq<string>): (entries: seq<string>)
    ensures |entries| >= 1
    ensures forall i :: 0 <= i < |entries| ==> IsEntry(entries[i])
  {
    var cleaned := CleanText(ListRepr(ingredients));
    EntriesOfCleanText(cleaned);
    Entries(cleaned)
  }

  /** The same clean-up applied to each ingredient's own text, the pieces concatenated in order. */
  function ReClean(ingredients: seq<string>): seq<string> {
    if ingredients == [] then [] else ReCleanOne(ingredients[0]) + ReClean(ingredients[1..])
  }

  /** One ingredient's text cleaned and cut into its entries. */
  function ReCleanOne(ingredient: string): seq<string> {
    Entries(CleanText(ingredient))
  }

  /** Every entry of the corrected re-cleaning is trimmed and holds no square bracket, double quote or comma. */
  lemma {:induction false} ReCleanGivesEntries(ingredients: seq<string>)
    ensures forall i :: 0 <= i < |ReClean(ingredients)| ==> IsEntry(ReClean(ingredients)[i])
  {
    if ingredients != [] {
      EntriesOfCleanText(CleanText(ingredients[0]));
      assert ReCleanOne(ingredients[0]) == Entries(CleanText(ingredients[0]));
      ReCleanGivesEntries(ingredients[1..]);
    }
  }

  /** Re-cleaning leaves an already clean ingredient list exactly as it is. */
  lemma {:induction false} ReCleanKeepsCleanLists(ingredients: seq<string>)
    requires forall i :: 0 <= i < |ingredients| ==> IsCleanToken(ingredients[i])
    ensures ReClean(ingredients) == ingredients
  {
    if ingredients != [] {
      CleanTokenIsOneEntry(ingredients[0]);
      ReCleanKeepsCleanLists(ingredients[1..]);
      assert ingredients == [ingredients[0]] + ingredients[1..];
    }
  }

  lemma CleanTokenIsOneEntry(t: string)
    requires IsCleanToken(t)
    ensures ReCleanOne(t) == [t]
  {
    assert forall j :: 0 <= j < |t| ==> IsNerChar(t[j]) && t[j] != ',';
    CleanTextKeepsClean(t);
    OnePieceEntry(t);
  }

  lemma OnePieceEntry(t: string)
    requires ',' !in t && IsStripped(t)
    ensures Entries(t) == [t]
  {
    SplitOnWithoutSep(t, ',');
    StripStripped(t);
    StripAllSingle(t);
  }

  /** Every recipe `extract_ingredients` finds comes back from re-cleaning unchanged. */
  lemma ReCleanKeepsExtracted(dishName: string, rows: seq<RecipeRow>, sim: Fuzzy.Scorer, threshold: int, i: nat)
    requires i < |Extracted(dishName, rows, sim, threshold)|
    ensures var r := Extracted(dishName, rows, sim, threshold)[i];
            ReClean(r.ingredients) == r.ingredients
  {
    ExtractedSound(dishName, rows, sim, threshold, i);
    ReCleanKeepsCleanLists(Extracted(dishName, rows, sim, threshold)[i].ingredients);
  }

  // The agreement of the two versions on lists without escaped characters.

  /** A clean token whose only whitespace is the space character: `repr` writes it unescaped. */
  predicate IsPlainToken(t: string) {
    IsCleanToken(t) && forall j :: 0 <= j < |t| ==> IsWordChar(t[j]) || t[j] == ' '
  }

  lemma PlainTokenFiltered(t: string)
    requires IsPlainToken(t)
    ensures Filter(StrRepr(t), IsNerChar) == t
  {
    assert forall j :: 0 <= j < |t| ==> IsPrintable(t[j], '\'') && t[j] != '"';
    PrintableRepr(t);
    assert StrRepr(t) == ['\''] + t + ['\''];
    FilterEnclosed('\'', t, '\'', IsNerChar);
    FilterKeepsAll(t, IsNerChar);
  }

  lemma {:induction false} PlainItemsFiltered(ts: seq<string>)
    requires |ts| > 0
    requires forall i :: 0 <= i < |ts| ==> IsPlainToken(ts[i])
    ensures Filter(ReprItems(ts), IsNerChar) == Join(ts, ", ")
  {
    PlainTokenFiltered(ts[0]);
    if |ts| > 1 {
      PlainItemsFiltered(ts[1..]);
      FilterAppend(StrRepr(ts[0]) + ", ", ReprItems(ts[1..]), IsNerChar);
      FilterAppend(StrRepr(ts[0]), ", ", IsNerChar);
      FilterKeepsAll(", ", IsNerChar);
    }
  }

  lemma PlainListFiltered(ts: seq<string>)
    requires |ts| > 0
    requires forall i :: 0 <= i < |ts| ==> IsPlainToken(ts[i])
    ensures CleanText(ListRepr(ts)) == Join(ts, ", ")
  {
    PlainReprFiltered(ts);
    PlainJoinIsClean(ts);
    CleanTextOfFiltered(ListRepr(ts), Join(ts, ", "));
  }

  lemma PlainReprFiltered(ts: seq<string>)
    requires |ts| > 0
    requires forall i :: 0 <= i < |ts| ==> IsPlainToken(ts[i])
    ensures Filter(ListRepr(ts), IsNerChar) == Join(ts, ", ")
  {
    ListReprFiltered(ts);
    PlainItemsFiltered(ts);
  }

  /** The filter drops the brackets around a list's `repr`. */
  lemma ListReprFiltered(ts: seq<string>)
    ensures Filter(ListRepr(ts), IsNerChar) == Filter(ReprItems(ts), IsNerChar)
  {
    FilterEnclosed('[', ReprItems(ts), ']', IsNerChar);
    assert ListRepr(ts) == ['['] + ReprItems(ts) + [']'];
  }

  /** The filter drops two enclosing characters it rejects. */
  lemma FilterEnclosed(open: char, x: string, close: char, keep: char -> bool)
    requires !keep(open) && !keep(close)
    ensures Filter([open] + x + [close], keep) == Filter(x, keep)
  {
    FilterAppend([open] + x, [close], keep);
    FilterAppend([open], x, keep);
    assert Filter([open], keep) == [] by {
      assert [open][1..] == [];
    }
    assert Filter([close], keep) == [] by {
      assert [close][1..] == [];
    }
  }

  lemma PlainJoinIsClean(ts: seq<string>)
    requires forall i :: 0 <= i < |ts| ==> IsPlainToken(ts[i])
    ensures forall j :: 0 <= j < |Join(ts, ", ")| ==> IsNerChar(Join(ts, ", ")[j])
  {
    JoinKeeps(ts, ", ", IsNerChar);
  }

  /** When the filter alone already yields a clean text, the quote and bracket removal changes nothing. */
  lemma CleanTextOfFiltered(x: string, y: string)
    requires Filter(x, IsNerChar) == y
    requires forall j :: 0 <= j < |y| ==> IsNerChar(y[j])
    ensures CleanText(x) == y
  {
    RemoveAllAbsent(y, '"');
    RemoveAllAbsent(y, '[');
    RemoveAllAbsent(y, ']');
  }

  /** Leading spaces in front of a trimmed text are all that trimming removes. */
  lemma StripAfterSpace(w: string, t: string)
    requires w == "" || w == " "
    requires IsStripped(t)
    ensures Strip(w + t) == t
  {
    if w == " " {
      StripAfterOneSpace(t);
    } else {
      assert w + t == t;
      StripStripped(t);
    }
  }

  lemma StripAfterOneSpace(t: string)
    requires IsStripped(t)
    ensures Strip(" " + t) == t
  {
    var s := [' '] + t;
    assert s[1..] == t;
    StripSkipsSpace(s);
    StripStripped(t);
    assert " " + t == s;
  }

  lemma {:induction false} PlainJoinSplits(w: string, ts: seq<string>)
    requires w == "" || w == " "
    requires |ts| > 0
    requires forall i :: 0 <= i < |ts| ==> IsPlainToken(ts[i])
    ensures StripAll(SplitOn(w + Join(ts, ", "), ',')) == ts
    decreases |ts|
  {
    var t := ts[0];
    FirstPieceEntry(w, t);
    if |ts| == 1 {
      assert Join(ts, ", ") == t;
    } else {
      var tail := ts[1..];
      forall i | 0 <= i < |tail|
        ensures IsPlainToken(tail[i])
      {
        assert tail[i] == ts[i + 1];
      }
      PlainJoinSplits(" ", tail);
      CommaSpaceJoin(w, ts);
      StripSplitAppend(w + t, " " + Join(tail, ", "), [t], tail);
      assert [t] + tail == ts;
    }
  }

  /** Cutting at the comma that joins two texts keeps the trimmed pieces of each, in order. */
  lemma StripSplitAppend(a: string, b: string, x: seq<string>, y: seq<string>)
    requires StripAll(SplitOn(a, ',')) == x
    requires StripAll(SplitOn(b, ',')) == y
    ensures StripAll(SplitOn(a + [','] + b, ',')) == x + y
  {
    SplitOnAppend(a, b, ',');
    StripAllAppend(SplitOn(a, ','), SplitOn(b, ','));
  }

  lemma CommaSpaceJoin(w: string, ts: seq<string>)
    requires |ts| > 1
    ensures w + Join(ts, ", ") == (w + ts[0]) + [','] + (" " + Join(ts[1..], ", "))
  {
    var rest := Join(ts[1..], ", ");
    assert Join(ts, ", ") == ts[0] + ", " + rest;
    assert w + (ts[0] + ", " + rest) == (w + ts[0]) + [','] + (" " + rest);
  }

  lemma FirstPieceEntry(w: string, t: string)
    requires w == "" || w == " "
    requires IsPlainToken(t)
    ensures StripAll(SplitOn(w + t, ',')) == [t]
  {
    var s := w + t;
    assert ',' !in s by {
      forall j | 0 <= j < |s|
        ensures s[j] != ','
      {
        if j >= |w| {
          assert s[j] == t[j - |w|];
        }
      }
    }
    SplitOnWithoutSep(s, ',');
    StripAfterSpace(w, t);
    StripAllSingle(s);
  }

  lemma StripAllSingle(s: string)
    ensures StripAll([s]) == [Strip(s)]
  {
    assert [s][1..] == [];
  }

  lemma StripAllAppend(a: seq<string>, b: seq<string>)
    ensures StripAll(a + b) == StripAll(a) + StripAll(b)
  {
    EachAppend(a, b, Strip);
  }

  lemma EachAppend(a: seq<string>, b: seq<string>, f: string -> string)
    ensures Each(a + b, f) == Each(a, f) + Each(b, f)
  {
    assert forall i :: 0 <= i < |a + b| ==> Each(a + b, f)[i] == (Each(a, f) + Each(b, f))[i];
  }

  /** On lists without escaped characters the code as written and the corrected re-cleaning agree: both return the list. */
  lemma ReCleanAsWrittenAgrees(ts: seq<string>)
    requires |ts| > 0
    requires forall i :: 0 <= i < |ts| ==> IsPlainToken(ts[i])
    ensures ReCleanAsWritten(ts) == ts
    ensures ReClean(ts) == ts
  {
    PlainListReCleaned(ts);
    assert forall i :: 0 <= i < |ts| ==> IsCleanToken(ts[i]);
    ReCleanKeepsCleanLists(ts);
  }

  lemma PlainListReCleaned(ts: seq<string>)
    requires |ts| > 0
    requires forall i :: 0 <= i < |ts| ==> IsPlainToken(ts[i])
    ensures ReCleanAsWritten(ts) == ts
  {
    var joined := Join(ts, ", ");
    PlainListFiltered(ts);
    assert ReCleanAsWritten(ts) == Entries(joined);
    PlainJoinSplits("", ts);
    assert "" + joined == joined;
  }

  /**
   * An ingredient holding a tab, which the NER clean-up keeps, is written by
   * `str()` as a backslash and a `t`; the backslash is dropped and the `t`
   * joins the name.
   */
  lemma TabInIngredient()
    ensures CleanNer("a\tb") == ["a\tb"]
    ensures ReCleanAsWritten(["a\tb"]) == ["atb"]
    ensures ReClean(["a\tb"]) == ["a\tb"]
  {
    TabTokenIsClean();
    CleanNerOfCleanList(["a\tb"]);
    assert Join(["a\tb"], [',']) == "a\tb";
    ReCleanKeepsCleanLists(["a\tb"]);
    TabListAsWritten();
  }

  lemma TabTokenIsClean()
    ensures IsCleanToken("a\tb")
  {
  }

  lemma TabListAsWritten()
    ensures ReCleanAsWritten(["a\tb"]) == ["atb"]
  {
    TabListRepr();
    TabListCleaned();
    ReCleanAsWrittenVia(["a\tb"], "['a\\tb']", "atb");
    OnePieceEntry("atb");
  }

  lemma ReCleanAsWrittenVia(ts: seq<string>, listText: string, cleaned: string)
    requires ListRepr(ts) == listText && CleanText(listText) == cleaned
    ensures ReCleanAsWritten(ts) == Entries(cleaned)
  {
  }

  lemma TabListRepr()
    ensures ListRepr(["a\tb"]) == "['a\\tb']"
  {
    TabRepr();
    assert ReprItems(["a\tb"]) == StrRepr("a\tb");
  }

  lemma TabListCleaned()
    ensures CleanText("['a\\tb']") == "atb"
  {
    FilteredTabList();
    assert forall j :: 0 <= j < |"atb"| ==> IsNerChar("atb"[j]);
    CleanTextOfFiltered("['a\\tb']", "atb");
  }

  lemma FilteredTabList()
    ensures Filter("['a\\tb']", IsNerChar) == "atb"
  {
    FilteredQuotedTab();
    FilterCons('[', "'a\\tb']", IsNerChar);
    assert ['['] + "'a\\tb']" == "['a\\tb']";
  }

  lemma FilteredQuotedTab()
    ensures Filter("'a\\tb']", IsNerChar) == "atb"
  {
    FilteredNameTab();
    FilterCons('\'', "a\\tb']", IsNerChar);
    assert ['\''] + "a\\tb']" == "'a\\tb']";
  }

  lemma FilteredNameTab()
    ensures Filter("a\\tb']", IsNerChar) == "atb"
  {
    FilteredTabTail();
    FilterCons('a', "\\tb']", IsNerChar);
    assert ['a'] + "\\tb']" == "a\\tb']";
  }

  lemma FilteredTabTail()
    ensures Filter("\\tb']", IsNerChar) == "tb"
  {
    FilteredLetterTail();
    FilterCons('\\', "tb']", IsNerChar);
    assert ['\\'] + "tb']" == "\\tb']";
  }

  lemma FilteredLetterTail()
    ensures Filter("tb']", IsNerChar) == "tb"
  {
    FilteredQuoteTail();
    FilterCons('t', "b']", IsNerChar);
  }

  lemma FilteredQuoteTail()
    ensures Filter("b']", IsNerChar) == "b"
  {
    FilterCons(']', [], IsNerChar);
    FilterCons('\'', "]", IsNerChar);
    FilterCons('b', "']", IsNerChar);
  }

  lemma FilterCons(c: char, s: string, keep: char -> bool)
    ensures Filter([c] + s, keep) == (if keep(c) then [c] else []) + Filter(s, keep)
  {
    assert ([c] + s)[1..] == s;
  }

  /** `f` applied to each element, built one element at a time as a loop appends them. */
  function EachInTurn<T, U>(f: T -> U, xs: seq<T>): (r: seq<U>)
    ensures |r| == |xs|
  {
    if xs == [] then [] else EachInTurn(f, xs[..|xs| - 1]) + [f(xs[|xs| - 1])]
  }

  /** The element at each position is `f` of the element there. */
  lemma {:induction false} EachInTurnAt<T, U>(f: T -> U, xs: seq<T>, j: nat)
    requires j < |xs|
    ensures EachInTurn(f, xs)[j] == f(xs[j])
  {
    var init := xs[..|xs| - 1];
    if j < |init| {
      EachInTurnAt(f, init, j);
      assert init[j] == xs[j];
    }
  }

  /** Every list re-cleaned as written, in order. */
  function ReCleanAll(lists: seq<seq<string>>): (r: seq<seq<string>>)
    ensures |r| == |lists|
  {
    EachInTurn(ReCleanAsWritten, lists)
  }

  /** The list at each position is that position's list re-cleaned as written. */
  lemma ReCleanAllAt(lists: seq<seq<string>>)
    ensures forall j :: 0 <= j < |lists| ==> ReCleanAll(lists)[j] == ReCleanAsWritten(lists[j])
  {
    forall j | 0 <= j < |lists|
      ensures ReCleanAll(lists)[j] == ReCleanAsWritten(lists[j])
    {
      EachInTurnAt(ReCleanAsWritten, lists, j);
    }
  }

  /** The re-cleaning loop over the extracted lists, as written: one re-cleaned list per extracted list, in order. */
  method CleanExtracted(extracted: seq<seq<string>>) returns (cleaned: seq<seq<string>>)
    ensures cleaned == ReCleanAll(extracted)
  {
    cleaned := [];
    for i := 0 to |extracted|
      invariant cleaned == ReCleanAll(extracted[..i])
    {
      var entries := ReCleanAsWritten(extracted[i]);
      assert extracted[..i + 1][..i] == extracted[..i];
      cleaned := cleaned + [entries];
    }
    assert extracted[..|extracted|] == extracted;
  }

  // ---------------------------------------------------------------------
  // Pairing

  /** `zip(matched_titles, cleaned_ingredients)` as recipes. */
  function PairRecipes(titles: seq<string>, lists: seq<seq<string>>): (rs: seq<Recipe>)
    ensures |rs| == Fuzzy.Min(|titles|, |lists|)
    ensures forall i :: 0 <= i < |rs| ==> rs[i] == Recipe(titles[i], lists[i])
  {
    if titles == [] || lists == [] then [] else [Recipe(titles[0], lists[0])] + PairRecipes(titles[1..], lists[1..])
  }

  /** Each recipe with its ingredient list re-cleaned as written. */
  function ReCleaned(found: seq<Recipe>): (rs: seq<Recipe>)
    ensures |rs| == |found|
    ensures forall i :: 0 <= i < |found| ==> rs[i].title == found[i].title
    ensures forall i, j :: 0 <= i < |found| && 0 <= j < |rs[i].ingredients| ==> IsEntry(rs[i].ingredients[j])
  {
    seq(|found|, i requires 0 <= i < |found| => Recipe(found[i].title, ReCleanAsWritten(found[i].ingredients)))
  }

  /** Pairing the titles with the re-cleaned lists gives the recipes found, each re-cleaned. */
  lemma PairReCleaned(found: seq<Recipe>, titles: seq<string>, extracted: seq<seq<string>>)
    requires Aligned(found, titles, extracted)
    ensures PairRecipes(titles, ReCleanAll(extracted)) == ReCleaned(found)
  {
    ReCleanAllAt(extracted);
  }

  /** Recipes whose ingredients are all plain tokens come back from the re-cleaning unchanged. */
  lemma ReCleanedPlain(found: seq<Recipe>)
    requires forall i :: 0 <= i < |found| ==> |found[i].ingredients| > 0
    requires forall i, j :: 0 <= i < |found| && 0 <= j < |found[i].ingredients| ==> IsPlainToken(found[i].ingredients[j])
    ensures ReCleaned(found) == found
  {
    forall i | 0 <= i < |found|
      ensures ReCleaned(found)[i] == found[i]
    {
      ReCleanAsWrittenAgrees(found[i].ingredients);
    }
  }

  // ---------------------------------------------------------------------
  // The route

  /**
   * `/search`: a 400 reply for a bad query, 500 without a recipe table,
   * 400 when no recipe is found, and otherwise the recipes found, each
   * title with its ingredient list re-cleaned as the code is written (see
   * `ReCleanedPlain` for when that leaves the lists unchanged).
   */
  method Search(body: Body, recipes: Option<seq<RecipeRow>>, sim: Fuzzy.Scorer)
    returns (r: Result<seq<Recipe>, HttpError>)
    ensures ValidateQuery(body).Failure? ==> r == Failure(ValidateQuery(body).error)
    ensures ValidateQuery(body).Success? && recipes.None? ==> r.Failure? && r.error.status == ServerError
    ensures ValidateQuery(body).Success? && recipes.Some? ==>
      var found := Extracted(ValidateQuery(body).value, recipes.value, sim, ExtractThreshold);
      (found == [] ==> r.Failure? && r.error.status == BadRequest) &&
      (found != [] ==> r == Success(ReCleaned(found)))
  {
    var query := ValidateQuery(body);
    if query.Failure? {
      return Failure(query.error);
    }
    if recipes.None? {
      return Failure(HttpError(ServerError, "Recipes dataset not loaded"));
    }
    var extracted, titles := ExtractIngredients(query.value, recipes.value, sim, ExtractThreshold);
    ghost var found := Extracted(query.value, recipes.value, sim, ExtractThreshold);
    if extracted == [] {
      return Failure(HttpError(BadRequest, "No ingredients recognized"));
    }
    var cleaned := CleanExtracted(extracted);
    PairReCleaned(found, titles, extracted);
    return Success(PairRecipes(titles, cleaned));
  }
}
