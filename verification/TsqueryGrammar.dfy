/** What the two patterns of the text-search query read, said without the matcher: which bodies are
    quoted lexemes, which matches a scan of a text takes, and what an escaped body stands for. */
module TsqueryGrammar {
  import opened Options
  import opened Tsquery

  // ----- bodies -----

  /** One of the alternatives `[^'\\]`, `''` and `\\.`. */
  predicate IsItem(p: string) {
    (|p| == 1 && p[0] != '\'' && p[0] != '\\') || p == "''" ||
    (|p| == 2 && p[0] == '\\' && p[1] != '\n')
  }

  predicate AreItems(parts: seq<string>) { forall k | 0 <= k < |parts| :: IsItem(parts[k]) }

  function Concat(parts: seq<string>): string {
    if parts == [] then "" else parts[0] + Concat(parts[1..])
  }

  ghost predicate IsBody(s: string) { exists parts :: AreItems(parts) && Concat(parts) == s }

  /** A body from i on that a quote at r closes. */
  ghost predicate Closes(t: string, i: nat, r: nat) {
    i <= r < |t| && t[r] == '\'' && IsBody(t[i..r])
  }

  ghost predicate Closable(t: string, i: nat) { exists r: nat :: Closes(t, i, r) }

  ghost predicate ClosesLast(t: string, i: nat, r: nat) {
    Closes(t, i, r) && forall q: nat :: Closes(t, i, q) ==> q <= r
  }

  lemma ItemMatches(t: string, i: nat, p: string)
    requires IsItem(p) && i + |p| <= |t| && t[i..i + |p|] == p
    ensures ItemAt(t, i) == |p|
  {
    assert t[i] == p[0] && (|p| == 2 ==> t[i + 1] == p[1]);
  }

  lemma ItemFound(t: string, i: nat)
    requires ItemAt(t, i) > 0
    ensures i + ItemAt(t, i) <= |t| && IsItem(t[i..i + ItemAt(t, i)])
  {
    if t[i] == '\'' { assert t[i..i + 2] == "''"; }
  }

  lemma BodyMore(t: string, i: nat, n: nat, r: nat)
    requires i + n <= |t| && IsItem(t[i..i + n]) && Closes(t, i + n, r)
    ensures Closes(t, i, r)
  {
    var rest :| AreItems(rest) && Concat(rest) == t[i + n..r];
    var parts := [t[i..i + n]] + rest;
    assert parts[1..] == rest && t[i..r] == t[i..i + n] + t[i + n..r];
    assert AreItems(parts) && Concat(parts) == t[i..r];
  }

  /** A body is empty, or an item and a body. */
  lemma BodyLess(t: string, i: nat, r: nat)
    requires Closes(t, i, r) && i < r
    ensures ItemAt(t, i) > 0 && Closes(t, i + ItemAt(t, i), r)
  {
    var parts :| AreItems(parts) && Concat(parts) == t[i..r];
    var p, rest := parts[0], parts[1..];
    assert t[i..r][..|p|] == p && t[i..i + |p|] == p;
    ItemMatches(t, i, p);
    assert t[i + |p|..r] == t[i..r][|p|..] == Concat(rest);
    assert AreItems(rest);
  }

  /** The closing quote is the last one that ends a body: a match is as long as it can be. */
  lemma {:induction false} BodyEndMeans(t: string, i: nat)
    requires i <= |t|
    ensures BodyEnd(t, i).Some? <==> Closable(t, i)
    ensures BodyEnd(t, i).Some? ==> ClosesLast(t, i, BodyEnd(t, i).value)
    decreases |t| - i
  {
    var n := ItemAt(t, i);
    if n > 0 {
      ItemFound(t, i);
      BodyEndMeans(t, i + n);
      if BodyEnd(t, i + n).Some? { BodyMore(t, i, n, BodyEnd(t, i + n).value); }
    }
    if i < |t| && t[i] == '\'' {
      assert AreItems([]) && Concat([]) == t[i..i];
      assert Closes(t, i, i);
    }
    forall r: nat | Closes(t, i, r) ensures BodyEnd(t, i).Some? && r <= BodyEnd(t, i).value {
      if i < r { BodyLess(t, i, r); }
    }
  }

  // ----- the scan -----

  /** A match: the positions of its two quotes. */
  datatype Match = Match(open: nat, close: nat)

  /** A match begins here: a quote, a body, and a quote. */
  ghost predicate Opens(t: string, p: nat) {
    p < |t| && t[p] == '\'' && Closable(t, p + 1)
  }

  ghost predicate Longest(t: string, m: Match) {
    m.open < |t| && t[m.open] == '\'' && ClosesLast(t, m.open + 1, m.close)
  }

  predicate Covers(ms: seq<Match>, p: nat) {
    exists k | 0 <= k < |ms| :: ms[k].open <= p <= ms[k].close
  }

  /** From left to right, without overlaps, each as long as it can be, and none left out. */
  ghost predicate Scan(t: string, from: nat, ms: seq<Match>) {
    (forall k | 0 <= k < |ms| :: from <= ms[k].open && Longest(t, ms[k])) &&
    (forall j, k | 0 <= j < k < |ms| :: ms[j].close < ms[k].open) &&
    forall p | from <= p && Opens(t, p) :: Covers(ms, p)
  }

  predicate Reads(t: string, ms: seq<Match>, raw: seq<string>) {
    |raw| == |ms| && forall k | 0 <= k < |ms| ::
      ms[k].open < ms[k].close <= |t| && raw[k] == t[ms[k].open + 1..ms[k].close]
  }

  lemma CoversMore(m: Match, rest: seq<Match>, p: nat)
    requires m.open <= p && (m.close < p ==> Covers(rest, p))
    ensures Covers([m] + rest, p)
  {
    var ms := [m] + rest;
    if p <= m.close {
      assert ms[0].open <= p <= ms[0].close;
    } else {
      var k :| 0 <= k < |rest| && rest[k].open <= p <= rest[k].close;
      assert ms[k + 1] == rest[k];
    }
  }

  lemma ScanMore(t: string, m: Match, rest: seq<Match>)
    requires Longest(t, m) && Scan(t, m.close + 1, rest)
    ensures Scan(t, m.open, [m] + rest)
  {
    forall p | m.open <= p && Opens(t, p) ensures Covers([m] + rest, p) {
      CoversMore(m, rest, p);
    }
  }

  lemma ScanSkip(t: string, from: nat, ms: seq<Match>)
    requires !Opens(t, from) && Scan(t, from + 1, ms)
    ensures Scan(t, from, ms)
  {
  }

  lemma ReadsMore(t: string, m: Match, rest: seq<Match>, raw: seq<string>)
    requires Longest(t, m) && Reads(t, rest, raw)
    ensures Reads(t, [m] + rest, [t[m.open + 1..m.close]] + raw)
  {
  }

  /** `findall` reads the bodies of the matches of a scan. */
  lemma {:induction false} FindAllMeans(t: string, from: nat) returns (ms: seq<Match>)
    requires from <= |t|
    ensures Scan(t, from, ms) && Reads(t, ms, FindAll(t, from))
    decreases |t| - from
  {
    if from == |t| {
      ms := [];
    } else {
      BodyEndMeans(t, from + 1);
      if t[from] == '\'' && BodyEnd(t, from + 1).Some? {
        var m := Match(from, BodyEnd(t, from + 1).value);
        var rest := FindAllMeans(t, m.close + 1);
        ScanMore(t, m, rest);
        ReadsMore(t, m, rest, FindAll(t, m.close + 1));
        ms := [m] + rest;
      } else {
        ms := FindAllMeans(t, from + 1);
        ScanSkip(t, from, ms);
      }
    }
  }

  /** A scan takes the same matches whoever makes it. */
  lemma {:induction false} ScanUnique(t: string, from: nat, a: seq<Match>, b: seq<Match>)
    requires Scan(t, from, a) && Scan(t, from, b)
    ensures a == b
    decreases |a|
  {
    if a == [] {
      if b != [] { FirstIs(t, from, b, a); }
    } else {
      FirstIs(t, from, a, b);
      FirstIs(t, from, b, a);
      assert a[0].open == b[0].open && a[0].close == b[0].close;
      ScanRest(t, from, a);
      ScanRest(t, from, b);
      ScanUnique(t, a[0].close + 1, a[1..], b[1..]);
      assert a == [a[0]] + a[1..] && b == [b[0]] + b[1..];
    }
  }

  /** The other scan begins no later. */
  lemma FirstIs(t: string, from: nat, a: seq<Match>, b: seq<Match>)
    requires Scan(t, from, a) && Scan(t, from, b) && a != []
    ensures b != [] && b[0].open <= a[0].open
  {
    assert Longest(t, a[0]) && Opens(t, a[0].open);
    var k :| 0 <= k < |b| && b[k].open <= a[0].open <= b[k].close;
    if k > 0 { assert b[0].close < b[k].open && Longest(t, b[0]); }
  }

  lemma ScanRest(t: string, from: nat, ms: seq<Match>)
    requires Scan(t, from, ms) && ms != []
    ensures Scan(t, ms[0].close + 1, ms[1..])
  {
    var rest := ms[1..];
    forall p | ms[0].close + 1 <= p && Opens(t, p) ensures Covers(rest, p) {
      assert Longest(t, ms[0]) && Covers(ms, p);
      var k :| 0 <= k < |ms| && ms[k].open <= p <= ms[k].close;
      assert rest[k - 1] == ms[k];
    }
  }

  // ----- what a body stands for -----

  /** A doubled quote is a quote, an escaped character is itself, and any other character too. */
  function Meant(p: string): string {
    if p == "''" then "'" else if |p| == 2 then [p[1]] else p
  }

  function MeantAll(parts: seq<string>): string {
    if parts == [] then "" else Meant(parts[0]) + MeantAll(parts[1..])
  }

  lemma {:induction false} UnescapeMeans(parts: seq<string>)
    requires AreItems(parts)
    ensures Unescape(Concat(parts)) == MeantAll(parts)
  {
    if parts != [] {
      var p, rest := parts[0], Concat(parts[1..]);
      UnescapeMeans(parts[1..]);
      assert IsItem(p);
      assert (p + rest)[|p|..] == rest;
    }
  }

  // ----- the lexemes -----

  /** The distinct elements in the order of their first occurrences. */
  ghost predicate Firsts(s: seq<string>, at: seq<nat>, d: seq<string>) {
    |d| == |at| && (forall i, j | 0 <= i < j < |at| :: at[i] < at[j]) &&
    (forall i | 0 <= i < |at| :: at[i] < |s| && d[i] == s[at[i]] && s[at[i]] !in s[..at[i]]) &&
    forall x | x in s :: x in d
  }

  lemma {:induction false} DedupFirsts(s: seq<string>) returns (at: seq<nat>)
    ensures Firsts(s, at, Dedup(s))
  {
    if s == [] {
      at := [];
    } else {
      var n := |s| - 1;
      at := DedupFirsts(s[..n]);
      FirstsMore(s[..n], at, Dedup(s[..n]), s[n]);
      assert s == s[..n] + [s[n]];
      if s[n] !in Dedup(s[..n]) { at := at + [n]; }
    }
  }

  lemma FirstsMore(s: seq<string>, at: seq<nat>, d: seq<string>, x: string)
    requires Firsts(s, at, d)
    ensures if x in d then Firsts(s + [x], at, d) else Firsts(s + [x], at + [|s|], d + [x])
  {
    var t := s + [x];
    assert forall i :: 0 <= i < |at| ==> t[..at[i]] == s[..at[i]] && t[at[i]] == s[at[i]];
    if x !in d {
      assert x !in s && t[..|s|] == s;
    }
  }

  /** The lexemes of a query text: the bodies of its matches, in order, each with its escapes undone,
      without later repetitions. */
  lemma LexemesMean(t: string) returns (ms: seq<Match>, raw: seq<string>, at: seq<nat>)
    ensures Scan(t, 0, ms) && Reads(t, ms, raw)
    ensures forall k :: 0 <= k < |raw| ==> IsBody(raw[k])
    ensures |UnescapeAll(raw)| == |raw| && Firsts(UnescapeAll(raw), at, QueryLexemes(t))
    ensures forall k :: 0 <= k < |raw| ==> UnescapeAll(raw)[k] == Unescape(raw[k])
  {
    raw := FindAll(t, 0);
    ms := FindAllMeans(t, 0);
    at := DedupFirsts(UnescapeAll(raw));
    UnescapeEach(raw);
    forall k | 0 <= k < |raw| ensures IsBody(raw[k]) {
      assert Longest(t, ms[k]);
    }
  }

  lemma {:induction false} UnescapeEach(raw: seq<string>)
    ensures |UnescapeAll(raw)| == |raw|
    ensures forall k :: 0 <= k < |raw| ==> UnescapeAll(raw)[k] == Unescape(raw[k])
  {
    if raw != [] { UnescapeEach(raw[1..]); }
  }
}
