/** The validator's verdict on every draft, told over positions in the evidence: which quotes stand,
    which are repaired and to what, and which drafts are therefore refused. */
module ResponseVerdict {
  import opened Options
  import opened Text
  import opened TutorContract
  import opened ResponseValidator

  // ----- where a quote folds to the content -----

  predicate FoldsAt(fold: char -> char, quote: string, content: string, i: int) {
    0 <= i && i + |quote| <= |content| && FoldsTo(fold, content[i..i + |quote|], quote)
  }

  /** The one place a quote can be repaired from: no earlier span folds to it, and none that begins
      after its end. */
  ghost predicate OnlySpan(fold: char -> char, quote: string, content: string, i: int) {
    FoldsAt(fold, quote, content, i) &&
    (forall k | k < i :: !FoldsAt(fold, quote, content, k)) &&
    forall k | i + |quote| <= k :: !FoldsAt(fold, quote, content, k)
  }

  ghost predicate FirstFold(fold: char -> char, quote: string, content: string, from: nat, i: int) {
    from <= i && FoldsAt(fold, quote, content, i) &&
    forall k | from <= k < i :: !FoldsAt(fold, quote, content, k)
  }

  lemma MatchHere(fold: char -> char, quote: string, content: string, from: nat)
    requires quote != "" && FoldsAt(fold, quote, content, from)
    ensures var r := FoldMatches(fold, quote, content, from);
      r != [] && r[0] == from && r[1..] == FoldMatches(fold, quote, content, from + |quote|)
  {
    var rest := FoldMatches(fold, quote, content, from + |quote|);
    assert ([from] + rest)[1..] == rest;
  }

  ghost predicate NoneFrom(fold: char -> char, quote: string, content: string, from: int) {
    forall k | from <= k :: !FoldsAt(fold, quote, content, k)
  }

  /** The matches from a position on: none when nothing folds there, else the first position that does,
      and only this one when nothing folds from its end on. */
  lemma {:induction false} MatchesMean(fold: char -> char, quote: string, content: string, from: nat)
    requires quote != ""
    ensures var r := FoldMatches(fold, quote, content, from);
      if r == [] then NoneFrom(fold, quote, content, from)
      else FirstFold(fold, quote, content, from, r[0]) &&
           (|r| == 1 <==> NoneFrom(fold, quote, content, r[0] + |quote|))
    decreases |content| - from
  {
    if FoldsAt(fold, quote, content, from) {
      MatchHere(fold, quote, content, from);
      MatchesMean(fold, quote, content, from + |quote|);
      var rest := FoldMatches(fold, quote, content, from + |quote|);
      assert rest != [] ==> FoldsAt(fold, quote, content, rest[0]);
    } else if from + |quote| <= |content| {
      MatchesMean(fold, quote, content, from + 1);
      assert FoldMatches(fold, quote, content, from) == FoldMatches(fold, quote, content, from + 1);
    }
  }

  /** The matches r are one exactly when there is an only span, and then they are that. */
  lemma OnlyOne(fold: char -> char, quote: string, content: string, r: seq<nat>)
    requires quote != "" && (r == [] ==> NoneFrom(fold, quote, content, 0))
    requires r != [] ==> FirstFold(fold, quote, content, 0, r[0]) &&
                         (|r| == 1 <==> NoneFrom(fold, quote, content, r[0] + |quote|))
    ensures |r| == 1 ==> OnlySpan(fold, quote, content, r[0])
    ensures forall i | OnlySpan(fold, quote, content, i) :: |r| == 1 && r[0] == i
  {
    if r != [] {
      forall k | k < r[0] ensures !FoldsAt(fold, quote, content, k) {}
    }
  }

  /** A quote stands when it is there verbatim; otherwise it is repaired exactly when there is only one
      span to repair it from, and to that span. */
  lemma VerbatimMeans(fold: char -> char, quote: string, content: string)
    requires quote != ""
    ensures Contains(content, quote) ==> Verbatim(fold, quote, content) == Some(quote)
    ensures !Contains(content, quote) ==>
      (Verbatim(fold, quote, content).Some? <==> exists i :: OnlySpan(fold, quote, content, i))
    ensures forall i | !Contains(content, quote) && OnlySpan(fold, quote, content, i) ::
      Verbatim(fold, quote, content) == Some(content[i..i + |quote|])
  {
    MatchesMean(fold, quote, content, 0);
    OnlyOne(fold, quote, content, FoldMatches(fold, quote, content, 0));
  }

  // ----- citations -----

  predicate DistinctSources(evidence: seq<Evidence>) {
    forall x, y | 0 <= x < y < |evidence| :: evidence[x].chunk != evidence[y].chunk
  }

  /** What a quote becomes in a given content. */
  ghost predicate StandsAs(fold: char -> char, quote: string, content: string, result: string) {
    if Contains(content, quote) then result == quote
    else exists i :: OnlySpan(fold, quote, content, i) && result == content[i..i + |quote|]
  }

  /** What a citation becomes: a quote of the same source, not blank. */
  ghost predicate RepairsTo(fold: char -> char, evidence: seq<Evidence>, c: Citation, r: Citation) {
    r.chunk == c.chunk && !Blank(c.quote) &&
    exists e | e in evidence :: e.chunk == c.chunk && StandsAs(fold, c.quote, e.content, r.quote)
  }

  ghost predicate Resolvable(fold: char -> char, evidence: seq<Evidence>, c: Citation) {
    exists r :: RepairsTo(fold, evidence, c, r)
  }

  lemma VerbatimStands(fold: char -> char, quote: string, content: string)
    requires quote != ""
    ensures Verbatim(fold, quote, content).Some? <==>
      exists result :: StandsAs(fold, quote, content, result)
    ensures Verbatim(fold, quote, content).Some? ==>
      StandsAs(fold, quote, content, Verbatim(fold, quote, content).value)
  {
    VerbatimMeans(fold, quote, content);
    if Contains(content, quote) {
      assert StandsAs(fold, quote, content, quote);
    } else if i :| OnlySpan(fold, quote, content, i) {
      assert StandsAs(fold, quote, content, content[i..i + |quote|]);
    }
  }

  lemma RepairOneMeans(fold: char -> char, evidence: seq<Evidence>, c: Citation)
    requires DistinctSources(evidence) && c.quote != ""
    ensures RepairOne(fold, evidence, c).Some? <==> Resolvable(fold, evidence, c)
    ensures RepairOne(fold, evidence, c).Some? ==>
      RepairsTo(fold, evidence, c, RepairOne(fold, evidence, c).value)
  {
    var source := FindSource(evidence, c.chunk);
    if source.Some? {
      VerbatimStands(fold, c.quote, source.value.content);
      forall e | e in evidence && e.chunk == c.chunk ensures e == source.value {
        FindUnique(evidence, e);
      }
      if result :| StandsAs(fold, c.quote, source.value.content, result) && !Blank(c.quote) {
        assert RepairsTo(fold, evidence, c, Citation(c.chunk, result));
      }
    }
  }

  /** Where citations of chunks not seen before come from, in order: each is the first one of its chunk,
      and they are all of these. */
  ghost predicate Keeps(fold: char -> char, evidence: seq<Evidence>, cs: seq<Citation>, seen: set<Id>,
                        r: seq<Citation>, from: seq<nat>)
  {
    |from| == |r| && (forall k | 0 <= k < |r| :: from[k] < |cs|) &&
    (forall k, l | 0 <= k < l < |r| :: from[k] < from[l]) &&
    (forall k | 0 <= k < |r| :: RepairsTo(fold, evidence, cs[from[k]], r[k])) &&
    forall n: nat | n < |cs| :: n in from <==> IsFirst(cs, seen, n)
  }

  predicate IsFirst(cs: seq<Citation>, seen: set<Id>, n: int) {
    0 <= n < |cs| && cs[n].chunk !in seen && forall m | 0 <= m < n :: cs[m].chunk != cs[n].chunk
  }

  lemma IsFirstLater(cs: seq<Citation>, seen: set<Id>, n: nat)
    requires n + 1 < |cs|
    ensures IsFirst(cs, seen, n + 1) <==> IsFirst(cs[1..], seen + {cs[0].chunk}, n)
  {
    if IsFirst(cs[1..], seen + {cs[0].chunk}, n) {
      forall m | 0 <= m < n + 1 ensures cs[m].chunk != cs[n + 1].chunk {
        if m > 0 { assert cs[1..][m - 1] == cs[m]; }
      }
    }
  }

  /** All citations are repaired, or the draft is refused; of each chunk the first one is kept. */
  lemma {:induction false} RepairAllMeans(fold: char -> char, evidence: seq<Evidence>,
                                          cs: seq<Citation>, seen: set<Id>)
      returns (from: seq<nat>)
    requires DistinctSources(evidence) && forall n :: 0 <= n < |cs| ==> cs[n].quote != ""
    ensures RepairAll(fold, evidence, cs, seen).Some? <==>
      forall n :: 0 <= n < |cs| ==> Resolvable(fold, evidence, cs[n])
    ensures RepairAll(fold, evidence, cs, seen).Some? ==>
      Keeps(fold, evidence, cs, seen, RepairAll(fold, evidence, cs, seen).value, from)
  {
    from := [];
    if cs == [] { return; }
    RepairOneMeans(fold, evidence, cs[0]);
    var rest, more := cs[1..], seen + {cs[0].chunk};
    var later := RepairAllMeans(fold, evidence, rest, more);
    assert cs == [cs[0]] + rest;
    if RepairAll(fold, evidence, cs, seen).Some? {
      from := KeepsLater(fold, evidence, cs, seen, RepairOne(fold, evidence, cs[0]).value,
                         RepairAll(fold, evidence, rest, more).value, later);
    }
  }

  lemma FirstsLater(cs: seq<Citation>, seen: set<Id>, later: seq<nat>)
    requires cs != []
    requires forall n: nat | n < |cs| - 1 :: n in later <==> IsFirst(cs[1..], seen + {cs[0].chunk}, n)
    ensures forall n: nat | n < |cs| ::
      n in Shifted(cs[0].chunk in seen, later) <==> IsFirst(cs, seen, n)
  {
    var skip := cs[0].chunk in seen;
    forall n: nat | n < |cs| ensures n in Shifted(skip, later) <==> IsFirst(cs, seen, n) {
      ShiftedHas(skip, later, n);
      if n > 0 { IsFirstLater(cs, seen, n - 1); }
    }
  }

  lemma KeepsLater(fold: char -> char, evidence: seq<Evidence>, cs: seq<Citation>, seen: set<Id>,
                   first: Citation, r: seq<Citation>, later: seq<nat>) returns (from: seq<nat>)
    requires cs != [] && RepairsTo(fold, evidence, cs[0], first)
    requires Keeps(fold, evidence, cs[1..], seen + {cs[0].chunk}, r, later)
    ensures Keeps(fold, evidence, cs, seen,
                  (if cs[0].chunk in seen then [] else [first]) + r, from)
  {
    from := Shifted(cs[0].chunk in seen, later);
    FirstsLater(cs, seen, later);
    RepairsLater(fold, evidence, cs, cs[0].chunk in seen, first, r, later);
  }

  lemma RepairsLater(fold: char -> char, evidence: seq<Evidence>, cs: seq<Citation>, skip: bool,
                     first: Citation, r: seq<Citation>, later: seq<nat>)
    requires cs != [] && RepairsTo(fold, evidence, cs[0], first) && |later| == |r|
    requires forall k :: 0 <= k < |r| ==>
      later[k] < |cs| - 1 && RepairsTo(fold, evidence, cs[1..][later[k]], r[k])
    ensures var (from, all) := (Shifted(skip, later), (if skip then [] else [first]) + r);
      |from| == |all| && forall k :: 0 <= k < |all| ==>
        from[k] < |cs| && RepairsTo(fold, evidence, cs[from[k]], all[k])
  {
  }

  function Shifted(skip: bool, later: seq<nat>): seq<nat> {
    (if skip then [] else [0]) + seq(|later|, k requires 0 <= k < |later| => later[k] + 1)
  }

  lemma ShiftedHas(skip: bool, later: seq<nat>, n: nat)
    ensures n in Shifted(skip, later) <==> (n == 0 && !skip) || (n > 0 && n - 1 in later)
  {
    var head: seq<nat> := if skip then [] else [0];
    var from := Shifted(skip, later);
    assert |from| == |head| + |later|;
    assert forall k :: 0 <= k < |later| ==> from[|head| + k] == later[k] + 1;
    if n > 0 && n - 1 in later {
      var k :| 0 <= k < |later| && later[k] == n - 1;
      assert from[|head| + k] == n;
    }
    if n == 0 && !skip { assert from[0] == 0; }
    if n in from && (n > 0 || skip) {
      var k :| 0 <= k < |from| && from[k] == n;
      assert k >= |head| && from[|head| + (k - |head|)] == later[k - |head|] + 1;
    }
  }

  // ----- the verdict -----

  /** A draft that fits the contract, with flat fields that its intervention implies. */
  predicate WellFormed(d: Draft) {
    DraftOk(d) && (d.intervention.Some? ==> Derived(d, d.intervention.value))
  }

  predicate Asks(d: Draft) { d.intervention.Some? && d.intervention.value.situation.Ambiguous? }

  /** A factual draft that stands: grounded, cited, not blank, and every quote resolvable. */
  ghost predicate Stands(fold: char -> char, d: Draft, evidence: seq<Evidence>) {
    d.grounded && d.citations != [] && !Blank(d.answer) &&
    forall n | 0 <= n < |d.citations| :: Resolvable(fold, evidence, d.citations[n])
  }

  /** The stored draft differs from the given one only in its citations: the first one of each chunk,
      as it stands in the evidence. */
  ghost predicate RepairOf(fold: char -> char, evidence: seq<Evidence>, d: Draft, out: Draft) {
    out.answer == d.answer && out.mode == d.mode && out.grounded == d.grounded &&
    (if d.intervention.None? then out.intervention.None?
     else out.intervention == Some(d.intervention.value.(citations := out.citations))) &&
    exists from :: Keeps(fold, evidence, d.citations, {}, out.citations, from)
  }

  /** The verdict on every draft. In particular a quote that could be repaired from two places refuses
      the draft, and a well-formed grounded draft whose quotes stand or can be repaired is accepted. */
  lemma VerdictMeans(fold: char -> char, d: Draft, request: Request)
    ensures var v := Validated(fold, d, request);
      if !WellFormed(d) then v == Err(MODEL_OUTPUT_INVALID)
      else if Asks(d) then v == Ok(d)
      else if !InScope(request) then v == Err(RETRIEVAL_SCOPE_INVALID)
      else if d.mode.Abstain? then
        v == if d.grounded || d.citations != [] then Err(MODEL_OUTPUT_INVALID) else Ok(Abstention())
      else if Stands(fold, d, request.evidence) then
        v.Ok? && RepairOf(fold, request.evidence, d, v.value)
      else v == Err(MODEL_OUTPUT_INVALID)
  {
    if WellFormed(d) && !Asks(d) && InScope(request) && !d.mode.Abstain? {
      forall n | 0 <= n < |d.citations| ensures d.citations[n].quote != "" {
        assert d.citations[n] in d.citations;
      }
      var from := RepairAllMeans(fold, request.evidence, d.citations, {});
      if Stands(fold, d, request.evidence) {
        assert Resolvable(fold, request.evidence, d.citations[0]);
        if d.intervention.Some? {
          RepairKeepsContract(fold, d.intervention.value, request.evidence);
        }
      }
    }
  }

  /** A quote with two places to repair it from, and no verbatim one, is never accepted. */
  lemma AmbiguousRefused(fold: char -> char, d: Draft, request: Request, n: nat, e: Evidence, i: nat, k: nat)
    requires WellFormed(d) && !Asks(d) && InScope(request) && !d.mode.Abstain? && n < |d.citations|
    requires e in request.evidence && e.chunk == d.citations[n].chunk
    requires !Contains(e.content, d.citations[n].quote) && i + |d.citations[n].quote| <= k
    requires FoldsAt(fold, d.citations[n].quote, e.content, i)
    requires FoldsAt(fold, d.citations[n].quote, e.content, k)
    ensures Validated(fold, d, request) == Err(MODEL_OUTPUT_INVALID)
  {
    VerdictMeans(fold, d, request);
    var c := d.citations[n];
    forall r ensures !RepairsTo(fold, request.evidence, c, r) {
      forall s | s in request.evidence && s.chunk == c.chunk ensures s == e {
        FindUnique(request.evidence, s);
        FindUnique(request.evidence, e);
      }
      assert forall j :: !OnlySpan(fold, c.quote, e.content, j);
    }
    assert !Resolvable(fold, request.evidence, c);
  }
}
