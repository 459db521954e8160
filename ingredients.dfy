/**
 * Dish-name normalisation through the synonym table, and the recipe
 * extractor that looks a normalised dish name up in the recipe table.
 */
module Ingredients {
  import opened Wrappers
  import opened Text
  import Fuzzy

  // ---------------------------------------------------------------------
  // Synonym normaliser

  /** A table value: one alias, or a list of aliases. */
  datatype SynonymValue = One(alias: string) | Many(aliases: seq<string>)

  datatype SynonymEntry = SynonymEntry(key: string, value: SynonymValue)

  /** The synonym table, in declaration order. */
  const SynonymMap: seq<SynonymEntry> := [
    SynonymEntry("aubergine", One("eggplant")),
    SynonymEntry("brinjal", One("eggplant")),
    SynonymEntry("courgette", One("zucchini")),
    SynonymEntry("capsicum", One("bell pepper")),
    SynonymEntry("ladyfinger", One("okra")),
    SynonymEntry("spring onion", One("green onion")),
    SynonymEntry("beetroot", One("beet")),
    SynonymEntry("cilantro", One("coriander")),
    SynonymEntry("mixed vegetables", Many(["vegetables", "stir-fry vegetables"])),
    SynonymEntry("sweet corn", One("corn")),
    SynonymEntry("yam", Many(["sweet potato", "taro"])),
    SynonymEntry("cauliflower", Many(["gobi", "flower cabbage"])),
    SynonymEntry("cabbage", Many(["red cabbage", "green cabbage"])),
    SynonymEntry("cheddar cheese", One("cheese")),
    SynonymEntry("mozzarella cheese", One("cheese")),
    SynonymEntry("parmesan cheese", One("cheese")),
    SynonymEntry("paneer", Many(["cottage cheese", "Indian cheese"])),
    SynonymEntry("ghee", Many(["clarified butter", "butter"])),
    SynonymEntry("yogurt (milk, cultures)", Many(["yogurt", "curd"])),
    SynonymEntry("chicken breast", Many(["chicken", "poultry"])),
    SynonymEntry("salmon fillet", Many(["salmon", "fish"])),
    SynonymEntry("prawns", Many(["shrimp", "shellfish"])),
    SynonymEntry("wheat flour", Many(["flour", "all-purpose flour"])),
    SynonymEntry("olive oil", Many(["oil", "extra virgin olive oil"])),
    SynonymEntry("black pepper", Many(["peppercorns"])),
    SynonymEntry("cinnamon", Many(["cassia", "Ceylon cinnamon"])),
    SynonymEntry("turmeric", Many(["haldi"])),
    SynonymEntry("chili powder", Many(["red chili powder", "cayenne pepper powder"])),
    SynonymEntry("garam masala", Many(["Indian spice mix"]))
  ]

  /** The list a word is tested against: the entry's key, then its alias or aliases. */
  function Terms(e: SynonymEntry): seq<string> {
    [e.key] + match e.value
              case One(a) => [a]
              case Many(list) => list
  }

  /** The first entry, at position `from` or later, whose terms contain `word`. */
  function FirstHit(word: string, table: seq<SynonymEntry>, from: nat): (r: Option<nat>)
    requires from <= |table|
    ensures r.Some? ==> from <= r.value < |table| && word in Terms(table[r.value])
    ensures r.Some? ==> forall j :: from <= j < r.value ==> word !in Terms(table[j])
    ensures r.None? ==> forall j :: from <= j < |table| ==> word !in Terms(table[j])
    decreases |table| - from
  {
    if from == |table| then None
    else if word in Terms(table[from]) then Some(from)
    else FirstHit(word, table, from + 1)
  }

  /** The replacement for one word: the key of its first hit, or the word itself. */
  function Canonical(word: string, table: seq<SynonymEntry>): string {
    match FirstHit(word, table, 0)
    case Some(i) => table[i].key
    case None => word
  }

  /** Each word replaced by its canonical form, in order. */
  function CanonicalWords(words: seq<string>, table: seq<SynonymEntry>): (r: seq<string>)
    ensures |r| == |words|
    ensures forall i :: 0 <= i < |words| ==> r[i] == Canonical(words[i], table)
  {
    if words == [] then []
    else CanonicalWords(words[..|words| - 1], table) + [Canonical(words[|words| - 1], table)]
  }

  /** What `normalize_input` returns. */
  function Normalized(dishName: string): string {
    Join(CanonicalWords(SplitWords(Lower(dishName)), SynonymMap), " ")
  }

  /**
   * The scan in `normalize_input` for one word: the entries in order, stopping
   * at the first whose terms contain the word.
   */
  method CanonicalForm(word: string, table: seq<SynonymEntry>) returns (normalizedWord: string)
    ensures normalizedWord == Canonical(word, table)
  {
    normalizedWord := word;
    var j := 0;
    while j < |table|
      invariant 0 <= j <= |table|
      invariant FirstHit(word, table, j) == FirstHit(word, table, 0)
      invariant normalizedWord == word
    {
      if word in Terms(table[j]) {
        normalizedWord := table[j].key;
        break;
      }
      j := j + 1;
    }
  }

  /** `normalize_input`: each lower-cased word replaced through the synonym table. */
  method NormalizeInput(dishName: string) returns (normalized: string)
    ensures normalized == Normalized(dishName)
  {
    var words := SplitWords(Lower(dishName));
    var normalizedWords: seq<string> := [];
    for i := 0 to |words|
      invariant normalizedWords == CanonicalWords(words[..i], SynonymMap)
    {
      var normalizedWord := CanonicalForm(words[i], SynonymMap);
      CanonicalWordsStep(words, i, SynonymMap);
      normalizedWords := normalizedWords + [normalizedWord];
    }
    assert words[..|words|] == words;
    normalized := Join(normalizedWords, " ");
  }

  lemma CanonicalWordsStep(words: seq<string>, i: nat, table: seq<SynonymEntry>)
    requires i < |words|
    ensures CanonicalWords(words[..i + 1], table) == CanonicalWords(words[..i], table) + [Canonical(words[i], table)]
  {
    assert words[..i + 1][..i] == words[..i];
  }

  /** Entries that do not hold the word can be skipped. */
  lemma {:induction false} FirstHitSkipsMisses(word: string, table: seq<SynonymEntry>, lo: nat, hi: nat)
    requires lo <= hi <= |table|
    requires forall k :: lo <= k < hi ==> word !in Terms(table[k])
    ensures FirstHit(word, table, lo) == FirstHit(word, table, hi)
    decreases hi - lo
  {
    if lo < hi {
      FirstHitSkipsMisses(word, table, lo + 1, hi);
    }
  }
  /** The word goes to the key of entry `n` when entry `n` is the first to hold it. */
  lemma CanonicalAtFirstHit(word: string, table: seq<SynonymEntry>, n: nat)
    requires n < |table| && word in Terms(table[n])
    requires forall k :: 0 <= k < n ==> word !in Terms(table[k])
    ensures Canonical(word, table) == table[n].key
  {
    FirstHitSkipsMisses(word, table, 0, n);
  }

  /** The word goes to the key of entry `n` when the search from the start reaches entry `n` and entry `n` holds it. */
  lemma CanonicalAtHit(word: string, table: seq<SynonymEntry>, n: nat)
    requires n < |table| && word in Terms(table[n])
    requires FirstHit(word, table, 0) == FirstHit(word, table, n)
    ensures Canonical(word, table) == table[n].key
  {
  }

  /** A word that the search from the start carries past the last entry is emitted unchanged. */
  lemma CanonicalPastEnd(word: string, table: seq<SynonymEntry>)
    requires FirstHit(word, table, 0) == FirstHit(word, table, |table|)
    ensures Canonical(word, table) == word
  {
  }

  /** A word that no entry holds is emitted unchanged. */
  lemma CanonicalWithoutHit(word: string, table: seq<SynonymEntry>)
    requires forall k :: 0 <= k < |table| ==> word !in Terms(table[k])
    ensures Canonical(word, table) == word
  {
    FirstHitSkipsMisses(word, table, 0, |table|);
  }

  // The entries before the first hit of each example word, a few at a time.

  lemma BrinjalMisses()
    ensures forall k :: 0 <= k < 1 ==> "brinjal" !in Terms(SynonymMap[k])
  {
    assert "brinjal" !in Terms(SynonymMap[0]);
  }

  lemma CheeseSkips1()
    ensures FirstHit("cheese", SynonymMap, 0) == FirstHit("cheese", SynonymMap, 2)
  {
    assert "cheese" !in Terms(SynonymMap[0]);
    assert "cheese" !in Terms(SynonymMap[1]);
    FirstHitSkipsMisses("cheese", SynonymMap, 0, 2);
  }

  lemma CheeseSkips2()
    ensures FirstHit("cheese", SynonymMap, 2) == FirstHit("cheese", SynonymMap, 4)
  {
    assert "cheese" !in Terms(SynonymMap[2]);
    assert "cheese" !in Terms(SynonymMap[3]);
    FirstHitSkipsMisses("cheese", SynonymMap, 2, 4);
  }

  lemma CheeseSkips3()
    ensures FirstHit("cheese", SynonymMap, 4) == FirstHit("cheese", SynonymMap, 6)
  {
    assert "cheese" !in Terms(SynonymMap[4]);
    assert "cheese" !in Terms(SynonymMap[5]);
    FirstHitSkipsMisses("cheese", SynonymMap, 4, 6);
  }

  lemma CheeseSkips4()
    ensures FirstHit("cheese", SynonymMap, 6) == FirstHit("cheese", SynonymMap, 8)
  {
    assert "cheese" !in Terms(SynonymMap[6]);
    assert "cheese" !in Terms(SynonymMap[7]);
    FirstHitSkipsMisses("cheese", SynonymMap, 6, 8);
  }

  lemma CheeseSkips5()
    ensures FirstHit("cheese", SynonymMap, 8) == FirstHit("cheese", SynonymMap, 10)
  {
    assert "cheese" !in Terms(SynonymMap[8]);
    assert "cheese" !in Terms(SynonymMap[9]);
    FirstHitSkipsMisses("cheese", SynonymMap, 8, 10);
  }

  lemma CheeseSkips6()
    ensures FirstHit("cheese", SynonymMap, 10) == FirstHit("cheese", SynonymMap, 12)
  {
    assert "cheese" !in Terms(SynonymMap[10]);
    assert "cheese" !in Terms(SynonymMap[11]);
    FirstHitSkipsMisses("cheese", SynonymMap, 10, 12);
  }

  lemma CheeseSkips7()
    ensures FirstHit("cheese", SynonymMap, 12) == FirstHit("cheese", SynonymMap, 13)
  {
    assert "cheese" !in Terms(SynonymMap[12]);
    FirstHitSkipsMisses("cheese", SynonymMap, 12, 13);
  }

  lemma ButterSkips1()
    ensures FirstHit("butter", SynonymMap, 0) == FirstHit("butter", SynonymMap, 2)
  {
    assert "butter" !in Terms(SynonymMap[0]);
    assert "butter" !in Terms(SynonymMap[1]);
    FirstHitSkipsMisses("butter", SynonymMap, 0, 2);
  }

  lemma ButterSkips2()
    ensures FirstHit("butter", SynonymMap, 2) == FirstHit("butter", SynonymMap, 4)
  {
    assert "butter" !in Terms(SynonymMap[2]);
    assert "butter" !in Terms(SynonymMap[3]);
    FirstHitSkipsMisses("butter", SynonymMap, 2, 4);
  }

  lemma ButterSkips3()
    ensures FirstHit("butter", SynonymMap, 4) == FirstHit("butter", SynonymMap, 6)
  {
    assert "butter" !in Terms(SynonymMap[4]);
    assert "butter" !in Terms(SynonymMap[5]);
    FirstHitSkipsMisses("butter", SynonymMap, 4, 6);
  }

  lemma ButterSkips4()
    ensures FirstHit("butter", SynonymMap, 6) == FirstHit("butter", SynonymMap, 8)
  {
    assert "butter" !in Terms(SynonymMap[6]);
    assert "butter" !in Terms(SynonymMap[7]);
    FirstHitSkipsMisses("butter", SynonymMap, 6, 8);
  }

  lemma ButterSkips5()
    ensures FirstHit("butter", SynonymMap, 8) == FirstHit("butter", SynonymMap, 10)
  {
    assert "butter" !in Terms(SynonymMap[8]);
    assert "butter" !in Terms(SynonymMap[9]);
    FirstHitSkipsMisses("butter", SynonymMap, 8, 10);
  }

  lemma ButterSkips6()
    ensures FirstHit("butter", SynonymMap, 10) == FirstHit("butter", SynonymMap, 12)
  {
    assert "butter" !in Terms(SynonymMap[10]);
    assert "butter" !in Terms(SynonymMap[11]);
    FirstHitSkipsMisses("butter", SynonymMap, 10, 12);
  }

  lemma ButterSkips7()
    ensures FirstHit("butter", SynonymMap, 12) == FirstHit("butter", SynonymMap, 14)
  {
    assert "butter" !in Terms(SynonymMap[12]);
    assert "butter" !in Terms(SynonymMap[13]);
    FirstHitSkipsMisses("butter", SynonymMap, 12, 14);
  }

  lemma ButterSkips8()
    ensures FirstHit("butter", SynonymMap, 14) == FirstHit("butter", SynonymMap, 16)
  {
    assert "butter" !in Terms(SynonymMap[14]);
    assert "butter" !in Terms(SynonymMap[15]);
    FirstHitSkipsMisses("butter", SynonymMap, 14, 16);
  }

  lemma ButterSkips9()
    ensures FirstHit("butter", SynonymMap, 16) == FirstHit("butter", SynonymMap, 17)
  {
    assert "butter" !in Terms(SynonymMap[16]);
    FirstHitSkipsMisses("butter", SynonymMap, 16, 17);
  }

  lemma OilSkips1()
    ensures FirstHit("oil", SynonymMap, 0) == FirstHit("oil", SynonymMap, 2)
  {
    assert "oil" !in Terms(SynonymMap[0]);
    assert "oil" !in Terms(SynonymMap[1]);
    FirstHitSkipsMisses("oil", SynonymMap, 0, 2);
  }

  lemma OilSkips2()
    ensures FirstHit("oil", SynonymMap, 2) == FirstHit("oil", SynonymMap, 4)
  {
    assert "oil" !in Terms(SynonymMap[2]);
    assert "oil" !in Terms(SynonymMap[3]);
    FirstHitSkipsMisses("oil", SynonymMap, 2, 4);
  }

  lemma OilSkips3()
    ensures FirstHit("oil", SynonymMap, 4) == FirstHit("oil", SynonymMap, 6)
  {
    assert "oil" !in Terms(SynonymMap[4]);
    assert "oil" !in Terms(SynonymMap[5]);
    FirstHitSkipsMisses("oil", SynonymMap, 4, 6);
  }

  lemma OilSkips4()
    ensures FirstHit("oil", SynonymMap, 6) == FirstHit("oil", SynonymMap, 8)
  {
    assert "oil" !in Terms(SynonymMap[6]);
    assert "oil" !in Terms(SynonymMap[7]);
    FirstHitSkipsMisses("oil", SynonymMap, 6, 8);
  }

  lemma OilSkips5()
    ensures FirstHit("oil", SynonymMap, 8) == FirstHit("oil", SynonymMap, 10)
  {
    assert "oil" !in Terms(SynonymMap[8]);
    assert "oil" !in Terms(SynonymMap[9]);
    FirstHitSkipsMisses("oil", SynonymMap, 8, 10);
  }

  lemma OilSkips6()
    ensures FirstHit("oil", SynonymMap, 10) == FirstHit("oil", SynonymMap, 12)
  {
    assert "oil" !in Terms(SynonymMap[10]);
    assert "oil" !in Terms(SynonymMap[11]);
    FirstHitSkipsMisses("oil", SynonymMap, 10, 12);
  }

  lemma OilSkips7()
    ensures FirstHit("oil", SynonymMap, 12) == FirstHit("oil", SynonymMap, 14)
  {
    assert "oil" !in Terms(SynonymMap[12]);
    assert "oil" !in Terms(SynonymMap[13]);
    FirstHitSkipsMisses("oil", SynonymMap, 12, 14);
  }

  lemma OilSkips8()
    ensures FirstHit("oil", SynonymMap, 14) == FirstHit("oil", SynonymMap, 16)
  {
    assert "oil" !in Terms(SynonymMap[14]);
    assert "oil" !in Terms(SynonymMap[15]);
    FirstHitSkipsMisses("oil", SynonymMap, 14, 16);
  }

  lemma OilSkips9()
    ensures FirstHit("oil", SynonymMap, 16) == FirstHit("oil", SynonymMap, 20)
  {
    assert "oil" !in Terms(SynonymMap[16]);
    assert "oil" !in Terms(SynonymMap[17]);
    assert "oil" !in Terms(SynonymMap[18]);
    assert "oil" !in Terms(SynonymMap[19]);
    FirstHitSkipsMisses("oil", SynonymMap, 16, 20);
  }

  lemma OilSkips10()
    ensures FirstHit("oil", SynonymMap, 20) == FirstHit("oil", SynonymMap, 23)
  {
    assert "oil" !in Terms(SynonymMap[20]);
    assert "oil" !in Terms(SynonymMap[21]);
    assert "oil" !in Terms(SynonymMap[22]);
    FirstHitSkipsMisses("oil", SynonymMap, 20, 23);
  }

  lemma CheddarSkips1()
    ensures FirstHit("cheddar", SynonymMap, 0) == FirstHit("cheddar", SynonymMap, 2)
  {
    assert "cheddar" !in Terms(SynonymMap[0]);
    assert "cheddar" !in Terms(SynonymMap[1]);
    FirstHitSkipsMisses("cheddar", SynonymMap, 0, 2);
  }

  lemma CheddarSkips2()
    ensures FirstHit("cheddar", SynonymMap, 2) == FirstHit("cheddar", SynonymMap, 4)
  {
    assert "cheddar" !in Terms(SynonymMap[2]);
    assert "cheddar" !in Terms(SynonymMap[3]);
    FirstHitSkipsMisses("cheddar", SynonymMap, 2, 4);
  }

  lemma CheddarSkips3()
    ensures FirstHit("cheddar", SynonymMap, 4) == FirstHit("cheddar", SynonymMap, 6)
  {
    assert "cheddar" !in Terms(SynonymMap[4]);
    assert "cheddar" !in Terms(SynonymMap[5]);
    FirstHitSkipsMisses("cheddar", SynonymMap, 4, 6);
  }

  lemma CheddarSkips4()
    ensures FirstHit("cheddar", SynonymMap, 6) == FirstHit("cheddar", SynonymMap, 8)
  {
    assert "cheddar" !in Terms(SynonymMap[6]);
    assert "cheddar" !in Terms(SynonymMap[7]);
    FirstHitSkipsMisses("cheddar", SynonymMap, 6, 8);
  }

  lemma CheddarSkips5()
    ensures FirstHit("cheddar", SynonymMap, 8) == FirstHit("cheddar", SynonymMap, 10)
  {
    assert "cheddar" !in Terms(SynonymMap[8]);
    assert "cheddar" !in Terms(SynonymMap[9]);
    FirstHitSkipsMisses("cheddar", SynonymMap, 8, 10);
  }

  lemma CheddarSkips6()
    ensures FirstHit("cheddar", SynonymMap, 10) == FirstHit("cheddar", SynonymMap, 12)
  {
    assert "cheddar" !in Terms(SynonymMap[10]);
    assert "cheddar" !in Terms(SynonymMap[11]);
    FirstHitSkipsMisses("cheddar", SynonymMap, 10, 12);
  }

  lemma CheddarSkips7()
    ensures FirstHit("cheddar", SynonymMap, 12) == FirstHit("cheddar", SynonymMap, 14)
  {
    assert "cheddar" !in Terms(SynonymMap[12]);
    assert "cheddar" !in Terms(SynonymMap[13]);
    FirstHitSkipsMisses("cheddar", SynonymMap, 12, 14);
  }

  lemma CheddarSkips8()
    ensures FirstHit("cheddar", SynonymMap, 14) == FirstHit("cheddar", SynonymMap, 16)
  {
    assert "cheddar" !in Terms(SynonymMap[14]);
    assert "cheddar" !in Terms(SynonymMap[15]);
    FirstHitSkipsMisses("cheddar", SynonymMap, 14, 16);
  }

  lemma CheddarSkips9()
    ensures FirstHit("cheddar", SynonymMap, 16) == FirstHit("cheddar", SynonymMap, 20)
  {
    assert "cheddar" !in Terms(SynonymMap[16]);
    assert "cheddar" !in Terms(SynonymMap[17]);
    assert "cheddar" !in Terms(SynonymMap[18]);
    assert "cheddar" !in Terms(SynonymMap[19]);
    FirstHitSkipsMisses("cheddar", SynonymMap, 16, 20);
  }

  lemma CheddarSkips10()
    ensures FirstHit("cheddar", SynonymMap, 20) == FirstHit("cheddar", SynonymMap, 24)
  {
    assert "cheddar" !in Terms(SynonymMap[20]);
    assert "cheddar" !in Terms(SynonymMap[21]);
    assert "cheddar" !in Terms(SynonymMap[22]);
    assert "cheddar" !in Terms(SynonymMap[23]);
    FirstHitSkipsMisses("cheddar", SynonymMap, 20, 24);
  }

  lemma CheddarSkips11()
    ensures FirstHit("cheddar", SynonymMap, 24) == FirstHit("cheddar", SynonymMap, 29)
  {
    assert "cheddar" !in Terms(SynonymMap[24]);
    assert "cheddar" !in Terms(SynonymMap[25]);
    assert "cheddar" !in Terms(SynonymMap[26]);
    assert "cheddar" !in Terms(SynonymMap[27]);
    assert "cheddar" !in Terms(SynonymMap[28]);
    FirstHitSkipsMisses("cheddar", SynonymMap, 24, 29);
  }

  lemma CheeseHit()
    ensures "cheese" in Terms(SynonymMap[13]) && SynonymMap[13].key == "cheddar cheese"
  {
  }

  lemma ButterHit()
    ensures "butter" in Terms(SynonymMap[17]) && SynonymMap[17].key == "ghee"
  {
  }

  lemma OilHit()
    ensures "oil" in Terms(SynonymMap[23]) && SynonymMap[23].key == "olive oil"
  {
  }

  /** Replacement goes from an alias to its key; a key maps to itself. */
  lemma AliasesBecomeKeys()
    ensures Canonical("eggplant", SynonymMap) == "aubergine"
    ensures Canonical("aubergine", SynonymMap) == "aubergine"
    ensures Canonical("brinjal", SynonymMap) == "brinjal"
  {
    CanonicalAtFirstHit("eggplant", SynonymMap, 0);
    CanonicalAtFirstHit("aubergine", SynonymMap, 0);
    BrinjalMisses();
    CanonicalAtFirstHit("brinjal", SynonymMap, 1);
  }

  /** "cheese" is an alias of three keys; the first one declared wins. */
  lemma CheeseBecomesCheddarCheese()
    ensures Canonical("cheese", SynonymMap) == "cheddar cheese"
  {
    CheeseSkips1();
    CheeseSkips2();
    CheeseSkips3();
    CheeseSkips4();
    CheeseSkips5();
    CheeseSkips6();
    CheeseSkips7();
    CheeseHit();
    CanonicalAtHit("cheese", SynonymMap, 13);
  }

  lemma ButterBecomesGhee()
    ensures Canonical("butter", SynonymMap) == "ghee"
  {
    ButterSkips1();
    ButterSkips2();
    ButterSkips3();
    ButterSkips4();
    ButterSkips5();
    ButterSkips6();
    ButterSkips7();
    ButterSkips8();
    ButterSkips9();
    ButterHit();
    CanonicalAtHit("butter", SynonymMap, 17);
  }

  lemma OilBecomesOliveOil()
    ensures Canonical("oil", SynonymMap) == "olive oil"
  {
    OilSkips1();
    OilSkips2();
    OilSkips3();
    OilSkips4();
    OilSkips5();
    OilSkips6();
    OilSkips7();
    OilSkips8();
    OilSkips9();
    OilSkips10();
    OilHit();
    CanonicalAtHit("oil", SynonymMap, 23);
  }

  lemma CheddarIsNotInTheTable()
    ensures Canonical("cheddar", SynonymMap) == "cheddar"
  {
    CheddarSkips1();
    CheddarSkips2();
    CheddarSkips3();
    CheddarSkips4();
    CheddarSkips5();
    CheddarSkips6();
    CheddarSkips7();
    CheddarSkips8();
    CheddarSkips9();
    CheddarSkips10();
    CheddarSkips11();
    CanonicalPastEnd("cheddar", SynonymMap);
  }

  // ---------------------------------------------------------------------
  // What the normaliser does to whole dish names

  /** Every key of the table starts with a lower-case letter. */
  lemma KeysStartLowerCase()
    ensures forall k :: 0 <= k < |SynonymMap| ==>
      SynonymMap[k].key != [] && 'a' <= SynonymMap[k].key[0] <= 'z'
  {
  }

  /** A normalised word is never blank: it is the word itself or a key. */
  lemma CanonicalNotBlank(word: string, table: seq<SynonymEntry>)
    requires IsWord(word)
    requires forall k :: 0 <= k < |table| ==> HasNonSpace(table[k].key)
    ensures HasNonSpace(Canonical(word, table))
  {
    assert !IsSpace(word[0]);
  }

  /**
   * Normalisation never loses a word: each word becomes itself or a key of
   * one or more words, so the output has at least as many words as the
   * lower-cased input.
   */
  lemma NormalizedWordCount(dishName: string)
    ensures |SplitWords(Normalized(dishName))| >= |SplitWords(Lower(dishName))|
  {
    var words := SplitWords(Lower(dishName));
    var out := CanonicalWords(words, SynonymMap);
    KeysStartLowerCase();
    forall k | 0 <= k < |SynonymMap|
      ensures HasNonSpace(SynonymMap[k].key)
    {
      assert !IsSpace(SynonymMap[k].key[0]);
    }
    forall i | 0 <= i < |out|
      ensures HasNonSpace(out[i])
    {
      CanonicalNotBlank(words[i], SynonymMap);
    }
    JoinedWordCount(out);
  }

  /** Letter case in the dish name does not matter. */
  lemma NormalizedIgnoresCase(dishName: string)
    ensures Normalized(Lower(dishName)) == Normalized(dishName)
  {
    LowerIdempotent(dishName);
  }

  lemma NormalizedCheese()
    ensures Normalized("cheese") == "cheddar cheese"
  {
    LowerOfLowerCase("cheese");
    SplitSingleWord("cheese");
    CheeseBecomesCheddarCheese();
    assert CanonicalWords(["cheese"], SynonymMap) == ["cheddar cheese"];
  }

  lemma CheddarCheeseIsLowerCase()
    ensures Lower("cheddar cheese") == "cheddar cheese"
  {
    LowerOfLowerCase("cheddar cheese");
  }

  lemma CheddarCheeseWords()
    ensures SplitWords(Lower("cheddar cheese")) == ["cheddar", "cheese"]
  {
    CheddarCheeseIsLowerCase();
    assert "cheddar cheese" == "cheddar" + " " + "cheese";
    SplitTwoWords("cheddar", "cheese");
  }

  lemma CheddarCheeseCanonical()
    ensures CanonicalWords(["cheddar", "cheese"], SynonymMap) == ["cheddar", "cheddar cheese"]
  {
    CheddarIsNotInTheTable();
    CheeseBecomesCheddarCheese();
  }

  lemma NormalizedCheddarCheese()
    ensures Normalized("cheddar cheese") == "cheddar cheddar cheese"
  {
    var words := SplitWords(Lower("cheddar cheese"));
    CheddarCheeseWords();
    var out := CanonicalWords(words, SynonymMap);
    CheddarCheeseCanonical();
    assert out == ["cheddar", "cheddar cheese"];
    JoinTwo(out);
  }

  lemma JoinTwo(out: seq<string>)
    requires out == ["cheddar", "cheddar cheese"]
    ensures Join(out, " ") == "cheddar cheddar cheese"
  {
  }

  /**
   * Normalisation is not idempotent: "cheese" becomes "cheddar cheese",
   * which normalises again to "cheddar cheddar cheese".
   */
  lemma NormalizedNotIdempotent()
    ensures Normalized(Normalized("cheese")) != Normalized("cheese")
  {
    NormalizedCheese();
    NormalizedCheddarCheese();
  }

  // ---------------------------------------------------------------------
  // Terms no word can match

  /** A term a word of a lower-cased, whitespace-split name can equal. */
  predicate Matchable(t: string) {
    IsWord(t) && forall i :: 0 <= i < |t| ==> !IsUpper(t[i])
  }

  /** The words `normalize_input` looks up are all matchable. */
  lemma {:induction false} SplitWordsMatchable(dishName: string)
    ensures forall i :: 0 <= i < |SplitWords(Lower(dishName))| ==>
      Matchable(SplitWords(Lower(dishName))[i])
  {
    var low := Lower(dishName);
    var words := SplitWords(low);
    SplitWordsMembers(low);
    forall i, j | 0 <= i < |words| && 0 <= j < |words[i]|
      ensures !IsUpper(words[i][j])
    {
      assert words[i][j] in low;
    }
  }

  function MatchableOnly(ts: seq<string>): (r: seq<string>)
    ensures forall t :: t in r <==> t in ts && Matchable(t)
  {
    if ts == [] then []
    else
      assert ts == [ts[0]] + ts[1..];
      (if Matchable(ts[0]) then [ts[0]] else []) + MatchableOnly(ts[1..])
  }

  /** The table with every alias that no word can match removed. */
  function Pruned(table: seq<SynonymEntry>): (r: seq<SynonymEntry>)
    ensures |r| == |table|
    ensures forall k :: 0 <= k < |table| ==> r[k].key == table[k].key
  {
    seq(|table|, k requires 0 <= k < |table| =>
      SynonymEntry(table[k].key, Many(MatchableOnly(Terms(table[k])[1..]))))
  }

  /**
   * Multi-word and capitalised aliases are dead entries: for a matchable
   * word, the table and the table without them agree on the first hit.
   */
  lemma {:induction false} PrunedAgrees(word: string, table: seq<SynonymEntry>, from: nat)
    requires Matchable(word) && from <= |table|
    ensures FirstHit(word, table, from) == FirstHit(word, Pruned(table), from)
    decreases |table| - from
  {
    if from < |table| {
      var ts := Terms(table[from]);
      assert ts == [ts[0]] + ts[1..];
      assert Terms(Pruned(table)[from]) == [ts[0]] + MatchableOnly(ts[1..]);
      assert word in ts <==> word in Terms(Pruned(table)[from]);
      PrunedAgrees(word, table, from + 1);
    }
  }

  /** The "spring onion" entry names no single word, so it never fires. */
  lemma SpringOnionNeverFires(dishName: string, i: nat)
    requires i < |SplitWords(Lower(dishName))|
    ensures FirstHit(SplitWords(Lower(dishName))[i], SynonymMap, 0) != Some(5)
  {
    SplitWordsMatchable(dishName);
    SpringOnionTerms();
    NeverHitsUnmatchable(SplitWords(Lower(dishName))[i], SynonymMap, 5);
  }

  lemma SpringOnionTerms()
    ensures forall t :: t in Terms(SynonymMap[5]) ==> !Matchable(t)
  {
    assert Terms(SynonymMap[5]) == ["spring onion", "green onion"];
    assert !Matchable("spring onion") by { assert IsSpace("spring onion"[6]); }
    assert !Matchable("green onion") by { assert IsSpace("green onion"[5]); }
  }

  /** An entry none of whose terms is a matchable word is never the first hit of one. */
  lemma NeverHitsUnmatchable(word: string, table: seq<SynonymEntry>, n: nat)
    requires Matchable(word)
    requires n < |table| && forall t :: t in Terms(table[n]) ==> !Matchable(t)
    ensures FirstHit(word, table, 0) != Some(n)
  {
  }

  // ---------------------------------------------------------------------
  // Recipe extractor

  /**
   * A row of the recipe table: its title and its NER text, when that cell
   * holds a string (a missing cell is read as a float and holds none).
   */
  datatype RecipeRow = RecipeRow(title: string, ner: Option<string>)

  /** One recipe found for a dish: the title it was found under and its ingredient tokens. */
  datatype Recipe = Recipe(title: string, ingredients: seq<string>)

  /** The characters the NER clean-up keeps: `\w`, `\s` and the comma. */
  predicate IsNerChar(c: char) {
    IsWordChar(c) || IsSpace(c) || c == ','
  }

  /** A cleaned ingredient token: word characters and whitespace only, lower-case, trimmed. */
  predicate IsCleanToken(t: string) {
    IsStripped(t) && forall j :: 0 <= j < |t| ==> (IsWordChar(t[j]) || IsSpace(t[j])) && !IsUpper(t[j])
  }

  /**
   * The NER clean-up: drop every character other than word characters,
   * whitespace and commas, split on commas, then trim and lower-case each piece.
   */
  function CleanNer(ner: string): (tokens: seq<string>)
    ensures |tokens| == Count(Filter(ner, IsNerChar), ',') + 1
    ensures forall i :: 0 <= i < |tokens| ==> IsCleanToken(tokens[i])
  {
    var kept := Filter(ner, IsNerChar);
    FilterMembers(ner, IsNerChar);
    var parts := SplitOn(kept, ',');
    SplitOnMembers(kept, ',');
    var tokens := seq(|parts|, i requires 0 <= i < |parts| => Lower(Strip(parts[i])));
    assert forall i :: 0 <= i < |tokens| ==> IsCleanToken(tokens[i]) by {
      forall i | 0 <= i < |tokens|
        ensures IsCleanToken(tokens[i])
      {
        CleanPieceIsClean(parts[i], kept);
      }
    }
    tokens
  }

  lemma CleanPieceIsClean(piece: string, kept: string)
    requires forall j :: 0 <= j < |kept| ==> IsNerChar(kept[j])
    requires ',' !in piece
    requires forall j :: 0 <= j < |piece| ==> piece[j] in kept
    ensures IsCleanToken(Lower(Strip(piece)))
  {
    var st := Strip(piece);
    var t := Lower(st);
    StripMembers(piece);
    forall j | 0 <= j < |t|
      ensures (IsWordChar(t[j]) || IsSpace(t[j])) && !IsUpper(t[j])
    {
      assert st[j] in piece;
      LowerCharClasses(st[j]);
    }
    if t != [] {
      LowerCharClasses(st[0]);
      LowerCharClasses(st[|st| - 1]);
    }
  }

  /** The characters of a clean list written out with commas all survive the clean-up. */
  lemma CleanListKeptWhole(tokens: seq<string>)
    requires forall i :: 0 <= i < |tokens| ==> IsCleanToken(tokens[i])
    ensures Filter(Join(tokens, [',']), IsNerChar) == Join(tokens, [','])
  {
    forall i, j | 0 <= i < |tokens| && 0 <= j < |tokens[i]|
      ensures IsNerChar(tokens[i][j])
    {
    }
    JoinKeeps(tokens, [','], IsNerChar);
    FilterKeepsAll(Join(tokens, [',']), IsNerChar);
  }

  /** A clean list written out with commas splits back into its tokens. */
  lemma CleanListSplits(tokens: seq<string>)
    requires |tokens| > 0
    requires forall i :: 0 <= i < |tokens| ==> IsCleanToken(tokens[i])
    ensures SplitOn(Join(tokens, [',']), ',') == tokens
  {
    forall i | 0 <= i < |tokens|
      ensures ',' !in tokens[i]
    {
      assert forall j :: 0 <= j < |tokens[i]| ==> tokens[i][j] != ',';
    }
    JoinSplitOnRoundTrip(tokens, ',');
  }

  /**
   * An ingredient list that is already clean comes back unchanged from the
   * clean-up once it is written out with commas.
   */
  lemma CleanNerOfCleanList(tokens: seq<string>)
    requires |tokens| > 0
    requires forall i :: 0 <= i < |tokens| ==> IsCleanToken(tokens[i])
    ensures CleanNer(Join(tokens, [','])) == tokens
  {
    CleanListKeptWhole(tokens);
    CleanListSplits(tokens);
    forall i | 0 <= i < |tokens|
      ensures Lower(Strip(tokens[i])) == tokens[i]
    {
      StripStripped(tokens[i]);
      LowerOfLowerCase(tokens[i]);
    }
  }

  /** The title column, in row order. */
  function Titles(rows: seq<RecipeRow>): (ts: seq<string>)
    ensures |ts| == |rows|
    ensures forall k :: 0 <= k < |rows| ==> ts[k] == rows[k].title
  {
    seq(|rows|, k requires 0 <= k < |rows| => rows[k].title)
  }

  /** The candidates whose score reaches the threshold, in order. */
  function KeptTitles(ms: seq<Fuzzy.Match>, threshold: int): (ts: seq<string>)
    ensures |ts| <= |ms|
    ensures forall t :: t in ts <==> exists m :: m in ms && m.choice == t && m.score >= threshold
  {
    if ms == [] then []
    else
      var rest := KeptTitles(ms[1..], threshold);
      assert forall m :: m in ms <==> m == ms[0] || m in ms[1..];
      if ms[0].score >= threshold then [ms[0].choice] + rest else rest
  }

  /**
   * Keeping the titles is a filter in order: one candidate keeps its title
   * exactly when it reaches the threshold, and the titles kept from two runs
   * of candidates are those of the first followed by those of the second
   * (so order and repeats are kept).
   */
  lemma {:induction false} KeptTitlesFilter(a: seq<Fuzzy.Match>, b: seq<Fuzzy.Match>, threshold: int)
    ensures forall m :: KeptTitles([m], threshold) == if m.score >= threshold then [m.choice] else []
    ensures KeptTitles(a + b, threshold) == KeptTitles(a, threshold) + KeptTitles(b, threshold)
  {
    forall m
      ensures KeptTitles([m], threshold) == if m.score >= threshold then [m.choice] else []
    {
      assert [m][1..] == [];
    }
    if a == [] {
      assert a + b == b;
    } else {
      assert (a + b)[1..] == a[1..] + b;
      KeptTitlesFilter(a[1..], b, threshold);
    }
  }

  /** The titles `extract_ingredients` goes on with: at most five, each from the table, each at or above the threshold. */
  function BestMatches(query: string, rows: seq<RecipeRow>, sim: Fuzzy.Scorer, threshold: int): (ts: seq<string>)
    ensures |ts| <= 5
    ensures forall i :: 0 <= i < |ts| ==> ts[i] in Titles(rows) && sim(query, ts[i]) >= threshold
    ensures forall m :: m in Fuzzy.Extract(sim, query, Titles(rows), 5) && m.score >= threshold ==> m.choice in ts
  {
    var ms := Fuzzy.Extract(sim, query, Titles(rows), 5);
    KeptScored(query, Titles(rows), sim, threshold, ms);
    KeptTitles(ms, threshold)
  }

  /** Titles kept from scored candidates are candidates that reach the threshold. */
  lemma KeptScored(query: string, choices: seq<string>, sim: Fuzzy.Scorer, threshold: int, ms: seq<Fuzzy.Match>)
    requires forall i :: 0 <= i < |ms| ==> ms[i].choice in choices && ms[i].score == sim(query, ms[i].choice)
    ensures forall i :: 0 <= i < |KeptTitles(ms, threshold)| ==>
      KeptTitles(ms, threshold)[i] in choices && sim(query, KeptTitles(ms, threshold)[i]) >= threshold
  {
    var ts := KeptTitles(ms, threshold);
    forall i | 0 <= i < |ts|
      ensures ts[i] in choices && sim(query, ts[i]) >= threshold
    {
      assert ts[i] in ts;
      var m :| m in ms && m.choice == ts[i] && m.score >= threshold;
      var j :| 0 <= j < |ms| && ms[j] == m;
    }
  }

  /** A title in the table that reaches the threshold leaves at least one best match. */
  lemma TitleReachingThreshold(query: string, rows: seq<RecipeRow>, sim: Fuzzy.Scorer, threshold: int, k: nat)
    requires k < |rows| && sim(query, rows[k].title) >= threshold
    ensures BestMatches(query, rows, sim, threshold) != []
  {
    var ms := Fuzzy.Extract(sim, query, Titles(rows), 5);
    assert Titles(rows)[k] in Titles(rows);
    assert ms[0] in ms && ms[0].score >= threshold;
  }

  /** What one row contributes for a title: one recipe when the title matches and the NER cell holds a non-empty string. */
  function RowRecipe(title: string, row: RecipeRow): seq<Recipe> {
    if row.title == title && row.ner.Some? && row.ner.value != [] then
      [Recipe(title, CleanNer(row.ner.value))]
    else []
  }

  /** The recipes of every row with the given title, in row order. */
  function RowsFor(title: string, rows: seq<RecipeRow>): seq<Recipe> {
    if rows == [] then []
    else RowsFor(title, rows[..|rows| - 1]) + RowRecipe(title, rows[|rows| - 1])
  }

  /** The recipes for each title in turn. */
  function Harvest(titles: seq<string>, rows: seq<RecipeRow>): seq<Recipe> {
    if titles == [] then []
    else Harvest(titles[..|titles| - 1], rows) + RowsFor(titles[|titles| - 1], rows)
  }

  /** Each recipe collected for a title comes from one row with that title. */
  lemma {:induction false} RowsForSound(title: string, rows: seq<RecipeRow>, i: nat)
    requires i < |RowsFor(title, rows)|
    ensures exists k :: 0 <= k < |rows| && RowRecipe(title, rows[k]) == [RowsFor(title, rows)[i]]
  {
    var front := rows[..|rows| - 1];
    var rest := RowsFor(title, front);
    if i < |rest| {
      RowsForSound(title, front, i);
      var k :| 0 <= k < |front| && RowRecipe(title, front[k]) == [rest[i]];
      assert rows[k] == front[k];
    } else {
      assert RowRecipe(title, rows[|rows| - 1]) == [RowsFor(title, rows)[i]];
    }
  }

  /** Every row with the title and a non-empty NER string gives a recipe. */
  lemma {:induction false} RowsForComplete(title: string, rows: seq<RecipeRow>, k: nat)
    requires k < |rows| && RowRecipe(title, rows[k]) != []
    ensures RowRecipe(title, rows[k])[0] in RowsFor(title, rows)
  {
    var front := rows[..|rows| - 1];
    var r := RowRecipe(title, rows[k])[0];
    assert RowsFor(title, rows) == RowsFor(title, front) + RowRecipe(title, rows[|rows| - 1]);
    if k < |front| {
      assert rows[k] == front[k];
      RowsForComplete(title, front, k);
    } else {
      assert RowRecipe(title, rows[|rows| - 1]) == [r];
    }
  }

  /** Each harvested recipe comes from one row, under one of the titles. */
  lemma {:induction false} HarvestSound(titles: seq<string>, rows: seq<RecipeRow>, i: nat)
    requires i < |Harvest(titles, rows)|
    ensures exists j, k ::
      0 <= j < |titles| && 0 <= k < |rows| && RowRecipe(titles[j], rows[k]) == [Harvest(titles, rows)[i]]
  {
    var n := |titles| - 1;
    var front := titles[..n];
    var rest := Harvest(front, rows);
    if i < |rest| {
      HarvestSound(front, rows, i);
      var j, k :| 0 <= j < |front| && 0 <= k < |rows| && RowRecipe(front[j], rows[k]) == [rest[i]];
      assert titles[j] == front[j];
    } else {
      RowsForSound(titles[n], rows, i - |rest|);
    }
  }

  /** Every row under one of the titles with a non-empty NER string is harvested. */
  lemma {:induction false} HarvestComplete(titles: seq<string>, rows: seq<RecipeRow>, title: string, k: nat)
    requires title in titles && k < |rows| && RowRecipe(title, rows[k]) != []
    ensures RowRecipe(title, rows[k])[0] in Harvest(titles, rows)
  {
    var n := |titles| - 1;
    var front := titles[..n];
    assert titles == front + [titles[n]];
    if title in front {
      HarvestComplete(front, rows, title, k);
    } else {
      RowsForComplete(titles[n], rows, k);
    }
  }

  /** The default `threshold` of `extract_ingredients`, the one the routes call it with. */
  const ExtractThreshold: int := 80

  /** What `extract_ingredients` finds, as recipes. */
  function Extracted(dishName: string, rows: seq<RecipeRow>, sim: Fuzzy.Scorer, threshold: int): seq<Recipe> {
    Harvest(BestMatches(Normalized(dishName), rows, sim, threshold), rows)
  }

  /** Each recipe pairs the title and the ingredient list at its own position. */
  predicate Aligned(found: seq<Recipe>, titles: seq<string>, ingredients: seq<seq<string>>) {
    |titles| == |found| && |ingredients| == |found| &&
    forall i :: 0 <= i < |found| ==> found[i] == Recipe(titles[i], ingredients[i])
  }

  /** The inner loop of `extract_ingredients`: the rows under one kept title. */
  method CollectRows(bestMatch: string, dataset: seq<RecipeRow>)
    returns (ingredients: seq<seq<string>>, titles: seq<string>)
    ensures Aligned(RowsFor(bestMatch, dataset), titles, ingredients)
  {
    ingredients := [];
    titles := [];
    for r := 0 to |dataset|
      invariant Aligned(RowsFor(bestMatch, dataset[..r]), titles, ingredients)
    {
      var row := dataset[r];
      RowsForStep(bestMatch, dataset, r);
      if row.title == bestMatch && row.ner.Some? && row.ner.value != [] {
        var cleaned := CleanNer(row.ner.value);
        AlignedAppend(RowsFor(bestMatch, dataset[..r]), titles, ingredients,
                      [Recipe(bestMatch, cleaned)], [bestMatch], [cleaned]);
        ingredients := ingredients + [cleaned];
        titles := titles + [bestMatch];
      }
    }
    assert dataset[..|dataset|] == dataset;
  }

  lemma HarvestStep(titles: seq<string>, b: nat, rows: seq<RecipeRow>)
    requires b < |titles|
    ensures Harvest(titles[..b + 1], rows) == Harvest(titles[..b], rows) + RowsFor(titles[b], rows)
  {
    assert titles[..b + 1][..b] == titles[..b];
  }

  lemma RowsForStep(title: string, rows: seq<RecipeRow>, r: nat)
    requires r < |rows|
    ensures RowsFor(title, rows[..r + 1]) == RowsFor(title, rows[..r]) + RowRecipe(title, rows[r])
  {
    assert rows[..r + 1][..r] == rows[..r];
  }

  /** Two aligned runs, one after the other, are aligned. */
  lemma AlignedAppend(f1: seq<Recipe>, t1: seq<string>, i1: seq<seq<string>>,
                      f2: seq<Recipe>, t2: seq<string>, i2: seq<seq<string>>)
    requires Aligned(f1, t1, i1) && Aligned(f2, t2, i2)
    ensures Aligned(f1 + f2, t1 + t2, i1 + i2)
  {
  }

  /**
   * `extract_ingredients`: the two lists it returns are aligned, the i-th
   * title being the title of the row whose NER gave the i-th ingredient list.
   */
  method ExtractIngredients(dishName: string, dataset: seq<RecipeRow>, sim: Fuzzy.Scorer, threshold: int)
    returns (allIngredients: seq<seq<string>>, matchedTitles: seq<string>)
    ensures Aligned(Extracted(dishName, dataset, sim, threshold), matchedTitles, allIngredients)
  {
    var name := NormalizeInput(dishName);
    var bestMatches := BestMatches(name, dataset, sim, threshold);
    allIngredients := [];
    matchedTitles := [];
    for b := 0 to |bestMatches|
      invariant Aligned(Harvest(bestMatches[..b], dataset), matchedTitles, allIngredients)
    {
      var ingredients, titles := CollectRows(bestMatches[b], dataset);
      HarvestStep(bestMatches, b, dataset);
      AlignedAppend(Harvest(bestMatches[..b], dataset), matchedTitles, allIngredients,
                    RowsFor(bestMatches[b], dataset), titles, ingredients);
      allIngredients := allIngredients + ingredients;
      matchedTitles := matchedTitles + titles;
    }
    assert bestMatches[..|bestMatches|] == bestMatches;
  }

  /** Every recipe found comes from a row of a title that scored at or above the threshold. */
  lemma ExtractedSound(dishName: string, rows: seq<RecipeRow>, sim: Fuzzy.Scorer, threshold: int, i: nat)
    requires i < |Extracted(dishName, rows, sim, threshold)|
    ensures var r := Extracted(dishName, rows, sim, threshold)[i];
      sim(Normalized(dishName), r.title) >= threshold &&
      exists k :: 0 <= k < |rows| && rows[k].title == r.title && rows[k].ner.Some? && rows[k].ner.value != [] &&
        r.ingredients == CleanNer(rows[k].ner.value)
  {
    var best := BestMatches(Normalized(dishName), rows, sim, threshold);
    HarvestSound(best, rows, i);
    var j, k :| 0 <= j < |best| && 0 <= k < |rows| &&
      RowRecipe(best[j], rows[k]) == [Harvest(best, rows)[i]];
  }

  /** Every row under a kept title with a non-empty NER string yields its recipe. */
  lemma ExtractedComplete(dishName: string, rows: seq<RecipeRow>, sim: Fuzzy.Scorer, threshold: int, j: nat, k: nat)
    requires j < |BestMatches(Normalized(dishName), rows, sim, threshold)| && k < |rows|
    requires rows[k].title == BestMatches(Normalized(dishName), rows, sim, threshold)[j]
    requires rows[k].ner.Some? && rows[k].ner.value != []
    ensures Recipe(rows[k].title, CleanNer(rows[k].ner.value)) in Extracted(dishName, rows, sim, threshold)
  {
    var best := BestMatches(Normalized(dishName), rows, sim, threshold);
    assert best[j] in best;
    HarvestComplete(best, rows, best[j], k);
  }

  /** No title at or above the threshold: both lists are empty. */
  lemma NothingAboveThreshold(dishName: string, rows: seq<RecipeRow>, sim: Fuzzy.Scorer, threshold: int)
    requires forall k :: 0 <= k < |rows| ==> sim(Normalized(dishName), rows[k].title) < threshold
    ensures Extracted(dishName, rows, sim, threshold) == []
  {
  }
}
