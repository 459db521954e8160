/**
 * Python's `str()` of a list of strings, which is the list's `repr`: each
 * element quoted and escaped, the elements separated by ", " and the whole
 * enclosed in square brackets. Characters are ASCII.
 */
module PyRepr {
  import opened Text

  function HexDigit(n: nat): (c: char)
    requires n < 16
    ensures IsWordChar(c)
  {
    if n < 10 then ('0' as int + n) as char else ('a' as int + n - 10) as char
  }

  /** A character `repr` writes as itself when `quote` encloses the string. */
  predicate IsPrintable(c: char, quote: char) {
    c != '\\' && c != quote && ' ' <= c && c != '\U{7F}'
  }

  /** How `repr` writes one character of a string enclosed in `quote`. */
  function EscapeChar(c: char, quote: char): (e: string)
    ensures IsPrintable(c, quote) <==> e == [c]
    ensures !IsPrintable(c, quote) ==> |e| >= 2 && e[0] == '\\'
  {
    if c == '\\' then "\\\\"
    else if c == quote then ['\\', quote]
    else if c == '\t' then "\\t"
    else if c == '\n' then "\\n"
    else if c == '\r' then "\\r"
    else if c < ' ' || c == '\U{7F}' then ['\\', 'x', HexDigit(c as int / 16), HexDigit(c as int % 16)]
    else [c]
  }

  /** The characters of a string as `repr` writes them between the quotes. */
  function EscapeBody(s: string, quote: char): string {
    if s == [] then [] else EscapeChar(s[0], quote) + EscapeBody(s[1..], quote)
  }

  /** The quote `repr` encloses a string in: a double quote only when the string has a single quote and no double quote. */
  function QuoteFor(s: string): (q: char)
    ensures q == '\'' || q == '"'
    ensures q == '"' <==> '\'' in s && '"' !in s
  {
    if '\'' in s && '"' !in s then '"' else '\''
  }

  /** `repr(s)` for a string. */
  function StrRepr(s: string): string {
    var quote := QuoteFor(s);
    [quote] + EscapeBody(s, quote) + [quote]
  }

  /** The elements of a list as `repr` writes them, separated by ", ". */
  function ReprItems(xs: seq<string>): string {
    if |xs| == 0 then []
    else if |xs| == 1 then StrRepr(xs[0])
    else StrRepr(xs[0]) + ", " + ReprItems(xs[1..])
  }

  /** `repr` of each element, in order. */
  function Reprs(xs: seq<string>): (rs: seq<string>)
    ensures |rs| == |xs|
    ensures forall i :: 0 <= i < |xs| ==> rs[i] == StrRepr(xs[i])
  {
    seq(|xs|, i requires 0 <= i < |xs| => StrRepr(xs[i]))
  }

  /** `str(xs)` for a list of strings: `"[" + ", ".join(map(repr, xs)) + "]"`. */
  function ListRepr(xs: seq<string>): (r: string)
    ensures |r| >= 2 && r[0] == '[' && r[|r| - 1] == ']'
    ensures r == "[" + Join(Reprs(xs), ", ") + "]"
  {
    ReprItemsJoin(xs);
    "[" + ReprItems(xs) + "]"
  }

  /** The elements written one after the other are the `repr`s joined by ", ". */
  lemma {:induction false} ReprItemsJoin(xs: seq<string>)
    ensures ReprItems(xs) == Join(Reprs(xs), ", ")
  {
    if |xs| > 1 {
      ReprItemsJoin(xs[1..]);
      assert Reprs(xs)[1..] == Reprs(xs[1..]);
    }
  }

  /** A string whose every character is printable is written between single quotes as it is. */
  lemma {:induction false} EscapePrintable(s: string, quote: char)
    requires forall i :: 0 <= i < |s| ==> IsPrintable(s[i], quote)
    ensures EscapeBody(s, quote) == s
  {
    if s != [] {
      EscapePrintable(s[1..], quote);
      assert [s[0]] + s[1..] == s;
    }
  }

  lemma PrintableRepr(s: string)
    requires forall i :: 0 <= i < |s| ==> IsPrintable(s[i], '\'') && s[i] != '"'
    ensures StrRepr(s) == "'" + s + "'"
  {
    assert '\'' !in s;
    EscapePrintable(s, '\'');
  }

  /** A tab inside a string is written as a backslash and the letter t. */
  lemma TabRepr()
    ensures StrRepr("a\tb") == "'a\\tb'"
  {
    assert '\'' !in "a\tb";
    assert EscapeBody("a\tb", '\'') == "a" + "\\t" + EscapeBody("b", '\'');
  }
}
