/**
 * The fuzzy string matcher (`thefuzz.process`) the engine calls, with the
 * similarity measure left as an oracle. Only the choice of candidates is
 * modelled: the best-scoring one for `extractOne`, the best-scoring few,
 * best first, for `extract`. Candidates with equal scores keep the order
 * in which they are scanned.
 */
module Fuzzy {
  import opened Wrappers

  /**
   * The similarity of a query to a candidate (WRatio after thefuzz's default
   * processing; a number from 0 to 100 there). The model never looks inside
   * it: it only compares scores with each other and with thresholds.
   */
  type Scorer = (string, string) -> int

  datatype Match = Match(choice: string, score: int)

  function Min(a: nat, b: nat): nat {
    if a <= b then a else b
  }

  /** The position of the first choice with the highest score. */
  function BestIndex(sim: Scorer, query: string, choices: seq<string>): (k: nat)
    requires |choices| > 0
    ensures k < |choices|
    ensures forall j :: 0 <= j < |choices| ==> sim(query, choices[j]) <= sim(query, choices[k])
    ensures forall j :: 0 <= j < k ==> sim(query, choices[j]) < sim(query, choices[k])
  {
    if |choices| == 1 then 0
    else
      var k := BestIndex(sim, query, choices[..|choices| - 1]);
      if sim(query, choices[|choices| - 1]) > sim(query, choices[k]) then |choices| - 1 else k
  }

  /** `process.extractOne(query, choices)`: the best choice and its score; nothing when there is no choice. */
  function ExtractOne(sim: Scorer, query: string, choices: seq<string>): (r: Option<Match>)
    ensures r.None? <==> choices == []
    ensures r.Some? ==> r.value.choice in choices && r.value.score == sim(query, r.value.choice)
    ensures r.Some? ==> forall c :: c in choices ==> sim(query, c) <= r.value.score
  {
    if choices == [] then None
    else
      var k := BestIndex(sim, query, choices);
      Some(Match(choices[k], sim(query, choices[k])))
  }

  /** How many times `c` occurs in `xs`. */
  function Count(xs: seq<string>, c: string): nat {
    if xs == [] then 0 else (if xs[0] == c then 1 else 0) + Count(xs[1..], c)
  }

  /** How many of the matches `ms` chose `c`. */
  function Taken(ms: seq<Match>, c: string): nat {
    if ms == [] then 0 else (if ms[0].choice == c then 1 else 0) + Taken(ms[1..], c)
  }

  /** The choices without the one at `k`, in order. */
  function Without(choices: seq<string>, k: nat): (others: seq<string>)
    requires k < |choices|
    ensures |others| == |choices| - 1
    ensures forall c :: c in others ==> c in choices
  {
    if k == 0 then choices[1..] else [choices[0]] + Without(choices[1..], k - 1)
  }

  /**
   * `process.extract(query, choices, limit=limit)`: the `limit` best choices
   * with their scores, best first. Each choice is taken at most as often as
   * it occurs, and no choice left out scores above the last one kept.
   */
  function Extract(sim: Scorer, query: string, choices: seq<string>, limit: nat): (ms: seq<Match>)
    ensures |ms| == Min(limit, |choices|)
    ensures forall i :: 0 <= i < |ms| ==> ms[i].choice in choices && ms[i].score == sim(query, ms[i].choice)
    ensures forall i :: 0 < i < |ms| ==> ms[i].score <= ms[i - 1].score
    ensures |ms| > 0 ==> forall c :: c in choices ==> sim(query, c) <= ms[0].score
    ensures TakesFromBest(sim, query, choices, ms)
    decreases limit
  {
    if limit == 0 || choices == [] then []
    else
      var k := BestIndex(sim, query, choices);
      var rest := Extract(sim, query, Without(choices, k), limit - 1);
      TakeBest(sim, query, choices, k, rest, [Match(choices[k], sim(query, choices[k]))] + rest);
      [Match(choices[k], sim(query, choices[k]))] + rest
  }

  /**
   * `ms` takes each of `choices` at most as often as it occurs, and no
   * choice left out (an occurrence not taken) scores above the last match.
   */
  ghost predicate TakesFromBest(sim: Scorer, query: string, choices: seq<string>, ms: seq<Match>) {
    (forall c :: Taken(ms, c) <= Count(choices, c)) &&
    (|ms| > 0 ==> forall c :: Taken(ms, c) < Count(choices, c) ==> sim(query, c) <= ms[|ms| - 1].score)
  }

  /** The best choice put in front of what takes from the best of the others takes from the best of all. */
  lemma TakeBest(sim: Scorer, query: string, choices: seq<string>, k: nat, rest: seq<Match>, ms: seq<Match>)
    requires k < |choices|
    requires forall j :: 0 <= j < |choices| ==> sim(query, choices[j]) <= sim(query, choices[k])
    requires ms == [Match(choices[k], sim(query, choices[k]))] + rest
    requires TakesFromBest(sim, query, Without(choices, k), rest)
    ensures TakesFromBest(sim, query, choices, ms)
  {
    forall c
      ensures Taken(ms, c) <= Count(choices, c)
      ensures Taken(ms, c) < Count(choices, c) ==> sim(query, c) <= ms[|ms| - 1].score
    {
      CountsStep(sim, query, choices, k, rest, ms, c);
    }
  }

  /** The best choice put in front of the matches taken from the others keeps both counting properties for `c`. */
  lemma CountsStep(sim: Scorer, query: string, choices: seq<string>, k: nat, rest: seq<Match>, ms: seq<Match>, c: string)
    requires k < |choices|
    requires forall j :: 0 <= j < |choices| ==> sim(query, choices[j]) <= sim(query, choices[k])
    requires ms == [Match(choices[k], sim(query, choices[k]))] + rest
    requires Taken(rest, c) <= Count(Without(choices, k), c)
    requires |rest| > 0 && Taken(rest, c) < Count(Without(choices, k), c) ==> sim(query, c) <= rest[|rest| - 1].score
    ensures Taken(ms, c) <= Count(choices, c)
    ensures Taken(ms, c) < Count(choices, c) ==> sim(query, c) <= ms[|ms| - 1].score
  {
    var others := Without(choices, k);
    assert ms[1..] == rest;
    CountWithout(choices, k, c);
    if rest == [] {
      if Taken(rest, c) < Count(others, c) {
        CountPositive(others, c);
      }
    } else {
      assert ms[|ms| - 1] == rest[|rest| - 1];
    }
  }

  /** Taking out the choice at `k` takes one occurrence of it out of the count. */
  lemma {:induction false} CountWithout(choices: seq<string>, k: nat, c: string)
    requires k < |choices|
    ensures Count(choices, c) == Count(Without(choices, k), c) + (if choices[k] == c then 1 else 0)
  {
    if k > 0 {
      CountWithout(choices[1..], k - 1, c);
      assert ([choices[0]] + Without(choices[1..], k - 1))[1..] == Without(choices[1..], k - 1);
    }
  }

  /** A string counted in `xs` is one of its elements. */
  lemma {:induction false} CountPositive(xs: seq<string>, c: string)
    requires Count(xs, c) > 0
    ensures c in xs
  {
    if xs[0] != c {
      CountPositive(xs[1..], c);
    }
  }
}
