/** Lexemes of a text-search query: the pattern that reads them out of a rendered query, the printer
    that quotes them back in, and that the two undo each other. */
module Tsquery {
  import opened Options
  import opened Text

  // ----- reading: '((?:[^'\\]|''|\\.)*)' with findall -----

  /** The length of the body item at position i: an ordinary character, a doubled quote, or a
      backslash with any character but a line feed after it; 0 when there is none. */
  function ItemAt(t: string, i: nat): (n: nat)
    ensures i + n <= |t| || n == 0
  {
    if i >= |t| then 0
    else if t[i] == '\'' then (if i + 1 < |t| && t[i + 1] == '\'' then 2 else 0)
    else if t[i] == '\\' then (if i + 1 < |t| && t[i + 1] != '\n' then 2 else 0)
    else 1
  }

  /** Where the closing quote of a match is whose body starts at i: as many items as possible, given
      back one by one until a quote follows. */
  function BodyEnd(t: string, i: nat): (r: Option<nat>)
    requires i <= |t|
    ensures r.Some? ==> i <= r.value < |t| && t[r.value] == '\''
    decreases |t| - i
  {
    var n := ItemAt(t, i);
    var longer := if n == 0 then None else BodyEnd(t, i + n);
    if longer.Some? then longer
    else if i < |t| && t[i] == '\'' then Some(i)
    else None
  }

  function FindAll(t: string, i: nat): seq<string>
    requires i <= |t|
    decreases |t| - i
  {
    if i == |t| then []
    else if t[i] == '\'' && BodyEnd(t, i + 1).Some? then
      var end := BodyEnd(t, i + 1).value;
      [t[i + 1..end]] + FindAll(t, end + 1)
    else FindAll(t, i + 1)
  }

  /** ''|\\(.) replaced by the escaped character, or by a quote. */
  function Unescape(s: string): string {
    if s == "" then ""
    else if |s| >= 2 && s[0] == '\'' && s[1] == '\'' then "'" + Unescape(s[2..])
    else if |s| >= 2 && s[0] == '\\' && s[1] != '\n' then [s[1]] + Unescape(s[2..])
    else [s[0]] + Unescape(s[1..])
  }

  function UnescapeAll(raw: seq<string>): seq<string> {
    if raw == [] then [] else [Unescape(raw[0])] + UnescapeAll(raw[1..])
  }

  /** `tuple(dict.fromkeys(...))`: the first occurrence of each, in order. */
  function Dedup(s: seq<string>): seq<string> {
    if s == [] then []
    else
      var init, last := Dedup(s[..|s| - 1]), s[|s| - 1];
      if last in init then init else init + [last]
  }

  function QueryLexemes(t: string): seq<string> { Dedup(UnescapeAll(FindAll(t, 0))) }

  // ----- printing -----

  function Replace(s: string, c: char, with: string): string {
    if s == "" then "" else (if s[0] == c then with else [s[0]]) + Replace(s[1..], c, with)
  }

  function Escape(lexeme: string): string { Replace(Replace(lexeme, '\\', "\\\\"), '\'', "''") }

  function Quote(lexeme: string): string { "'" + Escape(lexeme) + "'" }

  function QuoteAll(lexemes: seq<string>): seq<string> {
    if lexemes == [] then [] else [Quote(lexemes[0])] + QuoteAll(lexemes[1..])
  }

  function OrTsqueryText(lexemes: seq<string>): string { Join(QuoteAll(lexemes), " | ") }

  // ----- escaping, one character at a time -----

  function EscapeChar(c: char): string { if c == '\\' then "\\\\" else if c == '\'' then "''" else [c] }

  lemma {:induction false} ReplaceConcat(a: string, b: string, c: char, with: string)
    ensures Replace(a + b, c, with) == Replace(a, c, with) + Replace(b, c, with)
  {
    if a == "" {
      assert a + b == b;
    } else {
      assert (a + b)[1..] == a[1..] + b;
      ReplaceConcat(a[1..], b, c, with);
    }
  }

  lemma EscapeStep(s: string)
    requires s != ""
    ensures Escape(s) == EscapeChar(s[0]) + Escape(s[1..])
  {
    var first, rest := [s[0]], s[1..];
    assert s == first + rest;
    ReplaceConcat(first, rest, '\\', "\\\\");
    ReplaceConcat(Replace(first, '\\', "\\\\"), Replace(rest, '\\', "\\\\"), '\'', "''");
    assert first[1..] == "";
    if s[0] == '\\' {
      assert Replace(first, '\\', "\\\\") == "\\\\";
      assert "\\\\"[1..] == "\\" && "\\"[1..] == "";
    }
  }

  lemma {:induction false} UnescapeEscape(s: string)
    ensures Unescape(Escape(s)) == s
  {
    if s != "" {
      EscapeStep(s);
      UnescapeEscape(s[1..]);
      var e, rest := EscapeChar(s[0]), Escape(s[1..]);
      assert (e + rest)[|e|..] == rest;
      assert s == [s[0]] + s[1..];
    }
  }

  // ----- one quoted lexeme in a longer text -----

  lemma ItemIsEscape(t: string, i: nat, c: char, tail: string)
    requires i <= |t| && t[i..] == EscapeChar(c) + tail
    ensures ItemAt(t, i) == |EscapeChar(c)| && t[i + |EscapeChar(c)|..] == tail
  {
    var e := EscapeChar(c);
    assert t[i] == t[i..][0] == e[0];
    if |e| == 2 { assert t[i + 1] == t[i..][1] == e[1]; }
    assert t[i + |e|..] == t[i..][|e|..];
  }

  lemma BodyStep(t: string, i: nat, n: nat, end: nat)
    requires 1 <= n && i + n <= |t| && ItemAt(t, i) == n && BodyEnd(t, i + n) == Some(end)
    ensures BodyEnd(t, i) == Some(end)
  {
  }

  /** From inside a quoted lexeme the body runs exactly to its closing quote. */
  lemma {:induction false} BodyIsLexeme(t: string, i: nat, s: string, after: string)
    requires after == "" || after[0] != '\''
    requires i <= |t| && t[i..] == Escape(s) + ("'" + after)
    ensures BodyEnd(t, i) == Some(i + |Escape(s)|)
    decreases |s|
  {
    if s == "" {
      assert t[i..] == "'" + after;
      assert t[i] == t[i..][0] && (i + 1 < |t| ==> t[i + 1] == t[i..][1]);
    } else {
      EscapeStep(s);
      var e := EscapeChar(s[0]);
      var tail := Escape(s[1..]) + ("'" + after);
      assert t[i..] == e + tail;
      ItemIsEscape(t, i, s[0], tail);
      BodyIsLexeme(t, i + |e|, s[1..], after);
      BodyStep(t, i, |e|, i + |Escape(s)|);
    }
  }

  lemma {:induction false} SkipPlain(t: string, i: nat, j: nat)
    requires i <= j <= |t| && forall k :: i <= k < j ==> t[k] != '\''
    ensures FindAll(t, i) == FindAll(t, j)
    decreases j - i
  {
    if i < j { SkipPlain(t, i + 1, j); }
  }

  lemma FindAt(t: string, i: nat, end: nat, e: string)
    requires i < end < |t| && t[i] == '\'' && BodyEnd(t, i + 1) == Some(end) && t[i + 1..end] == e
    ensures FindAll(t, i) == [e] + FindAll(t, end + 1)
  {
  }

  /** Where the parts of a quoted lexeme are. */
  lemma Layout(t: string, i: nat, e: string, after: string)
    requires i <= |t| && t[i..] == "'" + e + "'" + after
    ensures i + |e| + 2 <= |t| && t[i] == '\'' && t[i + 1..i + 1 + |e|] == e
    ensures t[i + 1..] == e + ("'" + after) && t[i + |e| + 2..] == after
  {
    assert t[i] == t[i..][0];
    assert t[i + 1..] == t[i..][1..];
    assert t[i..][1..] == e + ("'" + after);
    assert t[i + 1..i + 1 + |e|] == t[i + 1..][..|e|] == e;
    assert t[i + |e| + 2..] == t[i..][|e| + 2..];
  }

  lemma FindQuoted(t: string, i: nat, s: string, after: string)
    requires after == "" || after[0] != '\''
    requires i <= |t| && t[i..] == Quote(s) + after
    ensures i + |Quote(s)| <= |t| && t[i + |Quote(s)|..] == after
    ensures FindAll(t, i) == [Escape(s)] + FindAll(t, i + |Quote(s)|)
  {
    var e := Escape(s);
    Layout(t, i, e, after);
    BodyIsLexeme(t, i + 1, s, after);
    FindAt(t, i, i + 1 + |e|, e);
  }

  lemma JoinMore(lexemes: seq<string>, separator: string)
    requires |lexemes| > 1
    ensures Join(QuoteAll(lexemes), separator)
              == Quote(lexemes[0]) + (separator + Join(QuoteAll(lexemes[1..]), separator))
  {
    var quoted := QuoteAll(lexemes);
    assert quoted[1..] == QuoteAll(lexemes[1..]);
    assert QuoteAll(lexemes[1..]) == [Quote(lexemes[1])] + QuoteAll(lexemes[1..][1..]);
  }

  lemma JoinOne(s: string, separator: string)
    ensures Join(QuoteAll([s]), separator) == Quote(s) + ""
  {
    assert [s][1..] == [] && QuoteAll([s]) == [Quote(s)] + QuoteAll([]);
  }

  lemma UnescapeMore(raw: string, found: seq<string>)
    ensures UnescapeAll([raw] + found) == [Unescape(raw)] + UnescapeAll(found)
  {
    assert ([raw] + found)[1..] == found;
  }

  lemma SkipSeparator(t: string, i: nat, separator: string, rest: string)
    requires '\'' !in separator && i <= |t| && t[i..] == separator + rest
    ensures i + |separator| <= |t| && t[i + |separator|..] == rest
    ensures FindAll(t, i) == FindAll(t, i + |separator|)
  {
    assert t[i + |separator|..] == t[i..][|separator|..];
    forall k | i <= k < i + |separator| ensures t[k] != '\'' {
      assert t[k] == t[i..][k - i] == separator[k - i];
    }
    SkipPlain(t, i, i + |separator|);
  }

  lemma FindThen(t: string, i: nat, s: string, separator: string, rest: string) returns (q: nat)
    requires separator != "" && '\'' !in separator
    requires i <= |t| && t[i..] == Quote(s) + (separator + rest)
    ensures q <= |t| && t[q..] == rest && FindAll(t, i) == [Escape(s)] + FindAll(t, q)
  {
    FindQuoted(t, i, s, separator + rest);
    q := i + |Quote(s)|;
    SkipSeparator(t, q, separator, rest);
    q := q + |separator|;
  }

  lemma FindFirst(t: string, i: nat, lexemes: seq<string>, separator: string) returns (q: nat)
    requires separator != "" && '\'' !in separator && |lexemes| > 1
    requires i <= |t| && t[i..] == Join(QuoteAll(lexemes), separator)
    ensures q <= |t| && t[q..] == Join(QuoteAll(lexemes[1..]), separator)
    ensures FindAll(t, i) == [Escape(lexemes[0])] + FindAll(t, q)
  {
    JoinMore(lexemes, separator);
    q := FindThen(t, i, lexemes[0], separator, Join(QuoteAll(lexemes[1..]), separator));
  }

  lemma FindOnly(t: string, i: nat, s: string, separator: string)
    requires i <= |t| && t[i..] == Join(QuoteAll([s]), separator)
    ensures FindAll(t, i) == [Escape(s)]
  {
    JoinOne(s, separator);
    FindQuoted(t, i, s, "");
    assert t[i + |Quote(s)|..] == "";
  }

  /** Reading a joined list finds the escaped lexemes, one for one. */
  lemma {:induction false} FindJoined(t: string, i: nat, lexemes: seq<string>, separator: string)
    requires separator != "" && '\'' !in separator
    requires i <= |t| && t[i..] == Join(QuoteAll(lexemes), separator)
    ensures UnescapeAll(FindAll(t, i)) == lexemes
    decreases |lexemes|
  {
    if lexemes == [] {
      assert t[i..] == "";
    } else if |lexemes| == 1 {
      var s := lexemes[0];
      assert lexemes == [s];
      FindOnly(t, i, s, separator);
      UnescapeEscape(s);
      UnescapeMore(Escape(s), []);
    } else {
      var q := FindFirst(t, i, lexemes, separator);
      FindJoined(t, q, lexemes[1..], separator);
      UnescapeEscape(lexemes[0]);
      UnescapeMore(Escape(lexemes[0]), FindAll(t, q));
    }
  }

  // ----- the printer and the parser undo each other -----

  /** Any separator without quotes will do: the printer's own, and the one a conjunction is rendered
      with. */
  lemma ReadPrinted(lexemes: seq<string>, separator: string)
    requires separator != "" && '\'' !in separator
    ensures QueryLexemes(Join(QuoteAll(lexemes), separator)) == Dedup(lexemes)
  {
    var t := Join(QuoteAll(lexemes), separator);
    assert t[0..] == t;
    FindJoined(t, 0, lexemes, separator);
  }

  /** For every list of lexemes, with quotes, backslashes, line breaks or nothing in them: reading the
      printed query gives the list back without its later duplicates. */
  lemma RoundTrip(lexemes: seq<string>)
    ensures QueryLexemes(OrTsqueryText(lexemes)) == Dedup(lexemes)
  {
    ReadPrinted(lexemes, " | ");
  }

  predicate NoRepeats(s: seq<string>) { forall i, j | 0 <= i < j < |s| :: s[i] != s[j] }

  lemma {:induction false} DedupMeans(s: seq<string>)
    ensures NoRepeats(Dedup(s)) && forall x :: x in Dedup(s) <==> x in s
    ensures NoRepeats(s) ==> Dedup(s) == s
  {
    if s != [] {
      var init, last := s[..|s| - 1], s[|s| - 1];
      DedupMeans(init);
      assert s == init + [last];
      if NoRepeats(s) {
        assert forall i :: 0 <= i < |init| ==> init[i] == s[i];
      }
    }
  }

  /** What is searched for is what was asked: rendering the lexemes of any query text and reading
      them again changes nothing. */
  lemma Stable(t: string)
    ensures QueryLexemes(OrTsqueryText(QueryLexemes(t))) == QueryLexemes(t)
    ensures NoRepeats(QueryLexemes(t))
  {
    RoundTrip(QueryLexemes(t));
    DedupMeans(UnescapeAll(FindAll(t, 0)));
    DedupMeans(QueryLexemes(t));
  }

  /** Different lists of distinct lexemes never print to the same query. */
  lemma Injective(a: seq<string>, b: seq<string>)
    requires NoRepeats(a) && NoRepeats(b) && OrTsqueryText(a) == OrTsqueryText(b)
    ensures a == b
  {
    RoundTrip(a);
    RoundTrip(b);
    DedupMeans(a);
    DedupMeans(b);
  }
}
