/**
 * The Python `str` primitives the engine is built from (`lower`, `strip`,
 * `split`, `join`, `replace`, and the character classes of `re`), over
 * ASCII characters.
 */
module Text {

  /**
   * `str.isspace()` on ASCII: tab, line feed, vertical tab, form feed,
   * carriage return, the separators 0x1C-0x1F and space. The same set is
   * the regular-expression class `\s`.
   */
  predicate IsSpace(c: char) {
    c == ' ' || '\t' <= c <= '\r' || '\U{1C}' <= c <= '\U{1F}'
  }

  predicate IsUpper(c: char) {
    'A' <= c <= 'Z'
  }

  /** The regular-expression class `\w` on ASCII: letters, digits and underscore. */
  predicate IsWordChar(c: char) {
    'a' <= c <= 'z' || 'A' <= c <= 'Z' || '0' <= c <= '9' || c == '_'
  }

  /** A non-empty run of non-whitespace characters: what `str.split()` yields. */
  predicate IsWord(w: string) {
    w != [] && forall i :: 0 <= i < |w| ==> !IsSpace(w[i])
  }

  predicate HasNonSpace(s: string) {
    exists i :: 0 <= i < |s| && !IsSpace(s[i])
  }

  /** No leading and no trailing whitespace: what `str.strip()` yields. */
  predicate IsStripped(s: string) {
    s == [] || (!IsSpace(s[0]) && !IsSpace(s[|s| - 1]))
  }

  function LowerChar(c: char): char {
    if IsUpper(c) then (c as int + 32) as char else c
  }

  /** `str.lower()`. */
  function Lower(s: string): (r: string)
    ensures |r| == |s|
    ensures forall i :: 0 <= i < |s| ==> r[i] == LowerChar(s[i])
  {
    seq(|s|, i requires 0 <= i < |s| => LowerChar(s[i]))
  }

  /** How many whitespace characters `s` starts with (what `str.lstrip()` drops). */
  function LeadingBlanks(s: string): (n: nat)
    ensures n <= |s|
    ensures forall k :: 0 <= k < n ==> IsSpace(s[k])
    ensures n < |s| ==> !IsSpace(s[n])
  {
    if s != [] && IsSpace(s[0]) then
      var n := 1 + LeadingBlanks(s[1..]);
      assert forall k :: 1 <= k < n ==> s[k] == s[1..][k - 1];
      n
    else 0
  }

  /** How many whitespace characters `s` ends with (what `str.rstrip()` drops). */
  function TrailingBlanks(s: string): (n: nat)
    ensures n <= |s|
    ensures forall k :: |s| - n <= k < |s| ==> IsSpace(s[k])
    ensures n < |s| ==> !IsSpace(s[|s| - 1 - n])
  {
    if s != [] && IsSpace(s[|s| - 1]) then
      var n := 1 + TrailingBlanks(s[..|s| - 1]);
      assert forall k :: |s| - n <= k < |s| - 1 ==> s[k] == s[..|s| - 1][k];
      n
    else 0
  }

  /** `str.strip()`: the text between the leading and the trailing whitespace. */
  function Strip(s: string): (r: string)
    ensures IsStripped(r)
    ensures r == [] <==> !HasNonSpace(s)
    ensures exists i :: SliceInBlanks(s, i, r)
  {
    var i := LeadingBlanks(s);
    var t := s[i..];
    var r := t[..|t| - TrailingBlanks(t)];
    StripSlice(s, i, t, r);
    r
  }

  /** The text left between the blanks at both ends is a slice with only whitespace around it. */
  lemma {:induction false} StripSlice(s: string, i: nat, t: string, r: string)
    requires i == LeadingBlanks(s) && t == s[i..] && r == t[..|t| - TrailingBlanks(t)]
    ensures IsStripped(r)
    ensures r == [] <==> !HasNonSpace(s)
    ensures SliceInBlanks(s, i, r)
  {
    var n := TrailingBlanks(t);
    if r != [] {
      assert r[0] == s[i];
      assert r[|r| - 1] == t[|t| - 1 - n];
      assert HasNonSpace(s) by {
        assert !IsSpace(s[i]);
      }
    } else {
      assert t == [];
    }
    forall k | 0 <= k < |r|
      ensures r[k] == s[i + k]
    {
      assert r[k] == t[k];
    }
    assert r == s[i..i + |r|];
    forall k | i + |r| <= k < |s|
      ensures IsSpace(s[k])
    {
      assert s[k] == t[k - i];
    }
  }

  /** `r` is the slice of `s` from `i`, and `s` has only whitespace before and after it. */
  predicate SliceInBlanks(s: string, i: int, r: string) {
    0 <= i <= |s| - |r| && r == s[i..i + |r|] &&
    (forall k :: 0 <= k < i ==> IsSpace(s[k])) && (forall k :: i + |r| <= k < |s| ==> IsSpace(s[k]))
  }

  /** Keeps the characters `keep` accepts, in order (`re.sub` with a negated class). */
  function Filter(s: string, keep: char -> bool): (r: string)
    ensures |r| <= |s|
  {
    if s == [] then []
    else
      assert s == [s[0]] + s[1..];
      (if keep(s[0]) then [s[0]] else []) + Filter(s[1..], keep)
  }

  /**
   * `s.replace(c, "")`: every `c` removed, the other characters kept in
   * order, which is `"".join(s.split(c))`.
   */
  function RemoveAll(s: string, c: char): (r: string)
    ensures c !in r
    ensures forall x :: x != c ==> (x in r <==> x in s)
    ensures r == Join(SplitOn(s, c), [])
  {
    FilterMembers(s, x => x != c);
    FilterOutIsJoin(s, c, x => x != c);
    Filter(s, x => x != c)
  }

  /** Dropping one character is joining the pieces between its occurrences. */
  lemma {:induction false} FilterOutIsJoin(s: string, c: char, keep: char -> bool)
    requires forall x :: keep(x) <==> x != c
    ensures Filter(s, keep) == Join(SplitOn(s, c), [])
  {
    if s != [] {
      FilterOutIsJoin(s[1..], c, keep);
      if s[0] == c {
        DropSeparator(s, c, keep);
      } else {
        KeepNonSeparator(s, c, keep);
      }
    }
  }

  /** A leading separator adds nothing to either side. */
  lemma {:induction false} DropSeparator(s: string, c: char, keep: char -> bool)
    requires s != [] && s[0] == c && !keep(c)
    requires Filter(s[1..], keep) == Join(SplitOn(s[1..], c), [])
    ensures Filter(s, keep) == Join(SplitOn(s, c), [])
  {
    var rest := SplitOn(s[1..], c);
    assert SplitOn(s, c) == [[]] + rest;
    JoinNothingCons([], rest);
  }

  /** A leading character other than the separator starts both sides. */
  lemma {:induction false} KeepNonSeparator(s: string, c: char, keep: char -> bool)
    requires s != [] && s[0] != c && keep(s[0])
    requires Filter(s[1..], keep) == Join(SplitOn(s[1..], c), [])
    ensures Filter(s, keep) == Join(SplitOn(s, c), [])
  {
    var rest := SplitOn(s[1..], c);
    var tail := Join(rest[1..], []);
    assert Filter(s, keep) == [s[0]] + Filter(s[1..], keep);
    JoinNothingCons(rest[0], rest[1..]);
    assert [rest[0]] + rest[1..] == rest;
    assert Filter(s[1..], keep) == rest[0] + tail;
    assert SplitOn(s, c) == [[s[0]] + rest[0]] + rest[1..];
    JoinNothingCons([s[0]] + rest[0], rest[1..]);
    assert ([s[0]] + rest[0]) + tail == [s[0]] + (rest[0] + tail);
  }

  /** Joining with nothing in between: the first piece, then the others joined. */
  lemma {:induction false} JoinNothingCons(x: string, ps: seq<string>)
    ensures Join([x] + ps, []) == x + Join(ps, [])
  {
    if ps != [] {
      assert ([x] + ps)[1..] == ps;
    }
  }

  /** Whitespace only, possibly nothing. */
  predicate IsBlank(s: string) {
    forall i :: 0 <= i < |s| ==> IsSpace(s[i])
  }

  /** `gaps[0] + words[0] + gaps[1] + ... + words[n - 1] + gaps[n]`. */
  function Interleave(gaps: seq<string>, words: seq<string>): string
    requires |gaps| == |words| + 1
  {
    if words == [] then gaps[0] else gaps[0] + words[0] + Interleave(gaps[1..], words[1..])
  }

  /** The runs of whitespace of `s` before, between and after its words. */
  function Gaps(s: string): (gaps: seq<string>)
    ensures |gaps| >= 1
    ensures s != [] && !IsSpace(s[0]) ==> gaps[0] == []
    ensures s != [] && IsSpace(s[0]) ==> gaps[0] != []
  {
    if s == [] then [[]]
    else
      var rest := Gaps(s[1..]);
      if IsSpace(s[0]) then [[s[0]] + rest[0]] + rest[1..]
      else if |s| > 1 && !IsSpace(s[1]) then rest
      else [[]] + rest
  }

  /** `str.split()` with no separator: the maximal runs of non-whitespace, in order (see `SplitWordsRuns`). */
  function SplitWords(s: string): (words: seq<string>)
    ensures forall i :: 0 <= i < |words| ==> IsWord(words[i])
    ensures s != [] && !IsSpace(s[0]) ==> words != []
  {
    if s == [] then []
    else
      var rest := SplitWords(s[1..]);
      if IsSpace(s[0]) then rest
      else if |s| > 1 && !IsSpace(s[1]) then [[s[0]] + rest[0]] + rest[1..]
      else [[s[0]]] + rest
  }

  /**
   * `words` are the maximal runs of non-whitespace of `s`: `s` is the words
   * with whitespace around and between them, and at least one whitespace
   * character between two words.
   */
  predicate AreRuns(s: string, gaps: seq<string>, words: seq<string>) {
    |gaps| == |words| + 1 && Interleave(gaps, words) == s &&
    (forall i :: 0 <= i < |gaps| ==> IsBlank(gaps[i])) &&
    (forall i :: 0 < i < |words| ==> gaps[i] != [])
  }

  /** The words of `str.split()` are the maximal runs of non-whitespace of the text. */
  lemma {:induction false} SplitWordsRuns(s: string)
    ensures AreRuns(s, Gaps(s), SplitWords(s))
  {
    if s != [] {
      var t := s[1..];
      var ws := SplitWords(t);
      var g := Gaps(t);
      SplitWordsRuns(t);
      assert [s[0]] + t == s;
      if IsSpace(s[0]) {
        RunsAfterSpace(s[0], t, g, ws);
      } else if |s| > 1 && !IsSpace(s[1]) {
        assert t[0] == s[1];
        RunsExtendWord(s[0], t, g, ws);
      } else {
        assert t != [] ==> t[0] == s[1];
        RunsNewWord(s[0], t, g, ws);
      }
    }
  }

  /** Whitespace in front widens the first gap. */
  lemma {:induction false} RunsAfterSpace(x: char, t: string, g: seq<string>, ws: seq<string>)
    requires AreRuns(t, g, ws) && IsSpace(x)
    ensures AreRuns([x] + t, [[x] + g[0]] + g[1..], ws)
  {
    var gaps := [[x] + g[0]] + g[1..];
    if ws == [] {
      assert Interleave(gaps, ws) == [x] + g[0];
    } else {
      var more := Interleave(g[1..], ws[1..]);
      assert gaps[1..] == g[1..];
      assert Interleave(gaps, ws) == ([x] + g[0]) + ws[0] + more;
      assert t == g[0] + ws[0] + more;
      assert ([x] + g[0]) + ws[0] + more == [x] + (g[0] + ws[0] + more);
    }
    assert IsBlank([x] + g[0]) by {
      assert forall k :: 1 <= k < |[x] + g[0]| ==> ([x] + g[0])[k] == g[0][k - 1];
    }
    assert forall i :: 1 <= i < |gaps| ==> gaps[i] == g[i];
  }

  /** Non-whitespace in front of a first word with no gap before it lengthens that word. */
  lemma {:induction false} RunsExtendWord(x: char, t: string, g: seq<string>, ws: seq<string>)
    requires AreRuns(t, g, ws) && !IsSpace(x) && ws != [] && g[0] == []
    ensures AreRuns([x] + t, g, [[x] + ws[0]] + ws[1..])
  {
    var words := [[x] + ws[0]] + ws[1..];
    var more := Interleave(g[1..], ws[1..]);
    assert words[1..] == ws[1..];
    assert Interleave(g, words) == g[0] + ([x] + ws[0]) + more;
    assert t == g[0] + ws[0] + more;
    assert g[0] + ([x] + ws[0]) + more == [x] + (g[0] + ws[0] + more);
    assert forall i :: 1 <= i < |words| ==> words[i] == ws[i];
  }

  /** Non-whitespace in front of a gap (or of nothing) is a word of its own. */
  lemma {:induction false} RunsNewWord(x: char, t: string, g: seq<string>, ws: seq<string>)
    requires AreRuns(t, g, ws) && !IsSpace(x)
    requires ws != [] ==> g[0] != []
    ensures AreRuns([x] + t, [[]] + g, [[x]] + ws)
  {
    var gaps := [[]] + g;
    var words := [[x]] + ws;
    assert gaps[1..] == g && words[1..] == ws;
    assert Interleave(gaps, words) == [] + [x] + Interleave(g, ws);
    assert forall i :: 1 <= i < |words| ==> words[i] == ws[i - 1] && gaps[i] == g[i - 1];
    assert forall i :: 1 <= i < |gaps| ==> gaps[i] == g[i - 1];
  }

  /** `sep.join(parts)`. */
  function Join(parts: seq<string>, sep: string): string {
    if |parts| == 0 then []
    else if |parts| == 1 then parts[0]
    else parts[0] + sep + Join(parts[1..], sep)
  }

  function Count(s: string, c: char): nat {
    if s == [] then 0 else (if s[0] == c then 1 else 0) + Count(s[1..], c)
  }

  /** `s.split(sep)`: the pieces between occurrences of `sep`, empty pieces included. */
  function SplitOn(s: string, sep: char): (parts: seq<string>)
    ensures |parts| == Count(s, sep) + 1
    ensures forall i :: 0 <= i < |parts| ==> sep !in parts[i]
  {
    if s == [] then [[]]
    else
      var rest := SplitOn(s[1..], sep);
      if s[0] == sep then [[]] + rest else [[s[0]] + rest[0]] + rest[1..]
  }

  /** Every character `Strip` keeps comes from its argument. */
  lemma {:induction false} StripMembers(s: string)
    ensures forall i :: 0 <= i < |Strip(s)| ==> Strip(s)[i] in s
  {
    var r := Strip(s);
    var i :| SliceInBlanks(s, i, r);
    forall k | 0 <= k < |r|
      ensures r[k] in s
    {
      assert r[k] == s[i + k];
    }
  }

  /** Every character of every one of `parts` occurs in `s`. */
  predicate CharsFrom(parts: seq<string>, s: string) {
    forall i, j :: 0 <= i < |parts| && 0 <= j < |parts[i]| ==> parts[i][j] in s
  }

  /** Every character of every word comes from the split string. */
  lemma {:induction false} SplitWordsMembers(s: string)
    ensures CharsFrom(SplitWords(s), s)
  {
    if s != [] {
      var rest := SplitWords(s[1..]);
      SplitWordsMembers(s[1..]);
      forall i, j | 0 <= i < |rest| && 0 <= j < |rest[i]|
        ensures rest[i][j] in s
      {
        assert rest[i][j] in s[1..];
      }
    }
  }

  /** Every character of every piece comes from the split string. */
  lemma {:induction false} SplitOnMembers(s: string, sep: char)
    ensures CharsFrom(SplitOn(s, sep), s)
  {
    if s != [] {
      var rest := SplitOn(s[1..], sep);
      SplitOnMembers(s[1..], sep);
      forall i, j | 0 <= i < |rest| && 0 <= j < |rest[i]|
        ensures rest[i][j] in s
      {
        assert rest[i][j] in s[1..];
      }
    }
  }

  // ---------------------------------------------------------------------
  // Lemmas

  /** Splitting on a separator and joining with it again gives back the text. */
  lemma {:induction false} SplitOnJoinRoundTrip(s: string, sep: char)
    ensures Join(SplitOn(s, sep), [sep]) == s
  {
    if s != [] {
      var rest := SplitOn(s[1..], sep);
      SplitOnJoinRoundTrip(s[1..], sep);
      if s[0] == sep {
        assert SplitOn(s, sep) == [[]] + rest;
      } else {
        var parts := SplitOn(s, sep);
        assert parts == [[s[0]] + rest[0]] + rest[1..];
        if |rest| == 1 {
          assert Join(parts, [sep]) == [s[0]] + rest[0];
        } else {
          assert Join(rest, [sep]) == rest[0] + [sep] + Join(rest[1..], [sep]);
          assert parts[1..] == rest[1..];
        }
      }
    }
  }

  /** A separator splits the text into the pieces of its two sides. */
  lemma {:induction false} SplitOnAppend(a: string, b: string, sep: char)
    ensures SplitOn(a + [sep] + b, sep) == SplitOn(a, sep) + SplitOn(b, sep)
  {
    var s := a + [sep] + b;
    if a == [] {
      assert s[1..] == b;
    } else {
      assert s[1..] == a[1..] + [sep] + b;
      SplitOnAppend(a[1..], b, sep);
    }
  }

  lemma {:induction false} FilterAppend(a: string, b: string, keep: char -> bool)
    ensures Filter(a + b, keep) == Filter(a, keep) + Filter(b, keep)
  {
    if a == [] {
      assert a + b == b;
    } else {
      var head := if keep(a[0]) then [a[0]] else [];
      assert (a + b)[0] == a[0];
      assert (a + b)[1..] == a[1..] + b;
      FilterAppend(a[1..], b, keep);
      assert Filter(a + b, keep) == head + Filter(a[1..] + b, keep);
      assert Filter(a, keep) == head + Filter(a[1..], keep);
    }
  }

  /** The filtered text holds exactly the characters of the text that `keep` accepts. */
  lemma {:induction false} FilterMembers(s: string, keep: char -> bool)
    ensures forall x :: x in Filter(s, keep) <==> x in s && keep(x)
  {
    if s != [] {
      FilterMembers(s[1..], keep);
      assert s == [s[0]] + s[1..];
    }
  }

  lemma FilterKeepsAll(s: string, keep: char -> bool)
    requires forall i :: 0 <= i < |s| ==> keep(s[i])
    ensures Filter(s, keep) == s
  {
    if s != [] {
      FilterKeepsAll(s[1..], keep);
    }
  }

  lemma RemoveAllAbsent(s: string, c: char)
    requires c !in s
    ensures RemoveAll(s, c) == s
  {
    FilterKeepsAll(s, x => x != c);
  }

  lemma StripStripped(s: string)
    requires IsStripped(s)
    ensures Strip(s) == s
  {
    assert LeadingBlanks(s) == 0;
    assert s[0..] == s;
    assert TrailingBlanks(s) == 0;
  }

  /** A leading whitespace character does not change what `strip` leaves. */
  lemma StripSkipsSpace(s: string)
    requires s != [] && IsSpace(s[0])
    ensures Strip(s) == Strip(s[1..])
  {
    var i := LeadingBlanks(s[1..]);
    assert LeadingBlanks(s) == 1 + i;
    assert s[1 + i..] == s[1..][i..];
  }

  lemma LowerIdempotent(s: string)
    ensures Lower(Lower(s)) == Lower(s)
  {
  }

  /** A single space between two texts splits into the words of each side. */
  lemma {:induction false} SplitWordsAppend(a: string, b: string)
    ensures SplitWords(a + " " + b) == SplitWords(a) + SplitWords(b)
  {
    if a == [] {
      assert a + " " + b == [' '] + b;
      WordsAfterSpace(' ', b);
    } else {
      SplitWordsAppend(a[1..], b);
      if IsSpace(a[0]) {
        AppendAfterSpace(a, b);
      } else if a[1..] != [] && !IsSpace(a[1..][0]) {
        AppendInWord(a, b);
      } else {
        AppendWordEnd(a, b);
      }
    }
  }

  /** Whitespace in front of `a` is in front of `a + " " + b` too and adds no word. */
  lemma {:induction false} AppendAfterSpace(a: string, b: string)
    requires a != [] && IsSpace(a[0])
    requires SplitWords(a[1..] + " " + b) == SplitWords(a[1..]) + SplitWords(b)
    ensures SplitWords(a + " " + b) == SplitWords(a) + SplitWords(b)
  {
    PeelFirst(a, b);
    WordsAfterSpace(a[0], a[1..] + " " + b);
    WordsAfterSpace(a[0], a[1..]);
  }

  /** A first character of `a` followed by non-whitespace lengthens the first word on both sides. */
  lemma {:induction false} AppendInWord(a: string, b: string)
    requires a != [] && !IsSpace(a[0]) && a[1..] != [] && !IsSpace(a[1..][0])
    requires SplitWords(a[1..] + " " + b) == SplitWords(a[1..]) + SplitWords(b)
    ensures SplitWords(a + " " + b) == SplitWords(a) + SplitWords(b)
  {
    var t := a[1..] + " " + b;
    PeelFirst(a, b);
    WordsInWord(a[0], t);
    WordsInWord(a[0], a[1..]);
    LengthenFirst([a[0]], SplitWords(a[1..]), SplitWords(b));
  }

  /** A first character of `a` followed by whitespace or by nothing is a word of its own on both sides. */
  lemma {:induction false} AppendWordEnd(a: string, b: string)
    requires a != [] && !IsSpace(a[0]) && (a[1..] == [] || IsSpace(a[1..][0]))
    requires SplitWords(a[1..] + " " + b) == SplitWords(a[1..]) + SplitWords(b)
    ensures SplitWords(a + " " + b) == SplitWords(a) + SplitWords(b)
  {
    var t := a[1..] + " " + b;
    PeelFirst(a, b);
    WordsWordEnd(a[0], t);
    WordsWordEnd(a[0], a[1..]);
    PrependWord([a[0]], SplitWords(a[1..]), SplitWords(b));
  }

  /** `a + " " + b` is the first character of `a` in front of the rest, which starts like the rest of `a` or with the space. */
  lemma PeelFirst(a: string, b: string)
    requires a != []
    ensures a == [a[0]] + a[1..]
    ensures a + " " + b == [a[0]] + (a[1..] + " " + b)
    ensures (a[1..] + " " + b)[0] == if a[1..] == [] then ' ' else a[1..][0]
  {
  }

  /** Lengthening the first word of `ws + vs` lengthens the first word of `ws`. */
  lemma LengthenFirst(w: string, ws: seq<string>, vs: seq<string>)
    requires ws != []
    ensures [w + (ws + vs)[0]] + (ws + vs)[1..] == ([w + ws[0]] + ws[1..]) + vs
  {
    assert (ws + vs)[0] == ws[0] && (ws + vs)[1..] == ws[1..] + vs;
  }

  /** A word in front of `ws + vs` is a word in front of `ws`. */
  lemma PrependWord(w: string, ws: seq<string>, vs: seq<string>)
    ensures [w] + (ws + vs) == ([w] + ws) + vs
  {
  }

  /** Whitespace in front adds no word. */
  lemma {:induction false} WordsAfterSpace(x: char, t: string)
    requires IsSpace(x)
    ensures SplitWords([x] + t) == SplitWords(t)
  {
    assert ([x] + t)[1..] == t;
  }

  /** Non-whitespace in front of non-whitespace lengthens the first word. */
  lemma {:induction false} WordsInWord(x: char, t: string)
    requires !IsSpace(x) && t != [] && !IsSpace(t[0])
    ensures SplitWords(t) != [] && SplitWords([x] + t) == [[x] + SplitWords(t)[0]] + SplitWords(t)[1..]
  {
    var s := [x] + t;
    assert s[1..] == t && s[1] == t[0];
  }

  /** Non-whitespace in front of whitespace, or of nothing, is a word of its own. */
  lemma {:induction false} WordsWordEnd(x: char, t: string)
    requires !IsSpace(x) && (t == [] || IsSpace(t[0]))
    ensures SplitWords([x] + t) == [[x]] + SplitWords(t)
  {
    var s := [x] + t;
    assert s[1..] == t && (t != [] ==> s[1] == t[0]);
  }

  lemma {:induction false} SplitSingleWord(w: string)
    requires IsWord(w)
    ensures SplitWords(w) == [w]
  {
    assert [w[0]] + w[1..] == w;
    if |w| == 1 {
      assert w[1..] == [] && SplitWords(w[1..]) == [];
      assert w == [w[0]];
    } else {
      assert IsWord(w[1..]) && w[1..][0] == w[1];
      SplitSingleWord(w[1..]);
    }
  }

  lemma LowerOfLowerCase(s: string)
    requires forall i :: 0 <= i < |s| ==> !IsUpper(s[i])
    ensures Lower(s) == s
  {
  }

  lemma {:induction false} SplitWordsNonEmpty(s: string)
    requires HasNonSpace(s)
    ensures SplitWords(s) != []
  {
    if IsSpace(s[0]) {
      var i :| 0 <= i < |s| && !IsSpace(s[i]);
      assert s[1..][i - 1] == s[i];
      SplitWordsNonEmpty(s[1..]);
    }
  }

  /**
   * Joining pieces that each hold a non-blank character with single spaces
   * yields at least one word per piece.
   */
  lemma {:induction false} JoinedWordCount(parts: seq<string>)
    requires forall i :: 0 <= i < |parts| ==> HasNonSpace(parts[i])
    ensures |SplitWords(Join(parts, " "))| >= |parts|
  {
    if |parts| == 1 {
      SplitWordsNonEmpty(parts[0]);
    } else if |parts| > 1 {
      SplitWordsAppend(parts[0], Join(parts[1..], " "));
      SplitWordsNonEmpty(parts[0]);
      JoinedWordCount(parts[1..]);
    }
  }

  lemma SplitTwoWords(a: string, b: string)
    requires IsWord(a) && IsWord(b)
    ensures SplitWords(a + " " + b) == [a, b]
  {
    SplitWordsAppend(a, b);
    SplitSingleWord(a);
    SplitSingleWord(b);
  }

  /** Lower-casing keeps word characters word characters and whitespace whitespace. */
  lemma LowerCharClasses(c: char)
    ensures !IsUpper(LowerChar(c))
    ensures IsWordChar(LowerChar(c)) <==> IsWordChar(c)
    ensures IsSpace(LowerChar(c)) <==> IsSpace(c)
  {
  }

  lemma {:induction false} SplitOnWithoutSep(s: string, sep: char)
    requires sep !in s
    ensures SplitOn(s, sep) == [s]
  {
    if s != [] {
      SplitOnWithoutSep(s[1..], sep);
      assert [s[0]] + s[1..] == s;
    }
  }

  /** Joining pieces free of the separator and splitting again gives back the pieces. */
  lemma {:induction false} JoinSplitOnRoundTrip(parts: seq<string>, sep: char)
    requires |parts| > 0
    requires forall i :: 0 <= i < |parts| ==> sep !in parts[i]
    ensures SplitOn(Join(parts, [sep]), sep) == parts
  {
    if |parts| == 1 {
      SplitOnWithoutSep(parts[0], sep);
    } else {
      JoinSplitOnRoundTrip(parts[1..], sep);
      SplitOnAppend(parts[0], Join(parts[1..], [sep]), sep);
      SplitOnWithoutSep(parts[0], sep);
      assert parts == [parts[0]] + parts[1..];
    }
  }

  /** A property every piece and the separator have, the joined text has too. */
  lemma {:induction false} JoinKeeps(parts: seq<string>, sep: string, p: char -> bool)
    requires forall i, j :: 0 <= i < |parts| && 0 <= j < |parts[i]| ==> p(parts[i][j])
    requires forall j :: 0 <= j < |sep| ==> p(sep[j])
    ensures forall j :: 0 <= j < |Join(parts, sep)| ==> p(Join(parts, sep)[j])
  {
    if |parts| > 1 {
      JoinKeeps(parts[1..], sep, p);
      var rest := Join(parts[1..], sep);
      assert forall i, j :: 1 <= i < |parts| && 0 <= j < |parts[i]| ==> parts[1..][i - 1][j] == parts[i][j];
      assert Join(parts, sep) == parts[0] + sep + rest;
      forall j | 0 <= j < |Join(parts, sep)|
        ensures p(Join(parts, sep)[j])
      {
        if j < |parts[0]| {
        } else if j < |parts[0]| + |sep| {
          assert Join(parts, sep)[j] == sep[j - |parts[0]|];
        } else {
          assert Join(parts, sep)[j] == rest[j - |parts[0]| - |sep|];
        }
      }
    }
  }
}
