/** The gate between the tutor model and the database: what it accepts, what it repairs, and that
    both are stable. `fold` is the regular-expression engine's per-character case folding. */
module ResponseValidator {
  import opened Options
  import opened Text
  import opened TutorContract

  const ABSTENTION :=
    "No encuentro evidencia suficiente en el material activo del curso para responder. " +
    "¿Puedes precisar el concepto o indicar la sección del PDF que estás estudiando?"

  const CLARIFICATION :=
    "¿A qué actividad o pregunta te refieres? Escríbela o indica el fragmento " +
    "del material que estás estudiando."

  datatype Draft = Draft(
    mode: Mode, answer: string, citations: seq<Citation>, grounded: bool,
    intervention: Option<Intervention>)

  datatype Evidence = Evidence(
    chunk: Id, course: Id, corpus: Id, version: Id, title: string, sha: string,
    pageStart: nat, pageEnd: nat, fragment: string, content: string, hash: string)

  /** The part of a tutor request that the validator reads. */
  datatype Request = Request(course: Id, corpus: Id, evidence: seq<Evidence>)

  datatype Failure = MODEL_OUTPUT_INVALID | RETRIEVAL_SCOPE_INVALID

  predicate DraftOk(d: Draft) {
    Sized(d.answer, 1, 6000) && |d.citations| <= 5 &&
    (forall c | c in d.citations :: CitationOk(c)) &&
    (d.intervention.Some? ==> InterventionOk(d.intervention.value))
  }

  function Abstention(): Draft { Draft(Abstain, ABSTENTION, [], false, None) }

  function DraftFrom(i: Intervention): Draft {
    Draft(ModeFor(i), EquivalentText(i), i.citations, i.grounded, Some(i))
  }

  function Clarification(): Draft {
    DraftFrom(Intervention(V1, Ambiguous, [Question(CLARIFICATION)], [], false))
  }

  /** The draft's flat fields are the ones its intervention implies. */
  predicate Derived(d: Draft, i: Intervention) {
    d.answer == EquivalentText(i) && d.mode == ModeFor(i) && d.grounded == i.grounded &&
    d.citations == i.citations && Distinct(Chunks(i.citations))
  }

  predicate InScope(request: Request) {
    (forall x, y | 0 <= x < y < |request.evidence| ::
       request.evidence[x].chunk != request.evidence[y].chunk) &&
    forall e | e in request.evidence :: e.course == request.course && e.corpus == request.corpus
  }

  // ----- quotes -----

  predicate FoldsTo(fold: char -> char, a: string, b: string) {
    |a| == |b| && forall i | 0 <= i < |a| :: fold(a[i]) == fold(b[i])
  }

  /** The non-overlapping, left-to-right case-insensitive matches of `quote`. */
  function FoldMatches(fold: char -> char, quote: string, content: string, from: nat): (r: seq<nat>)
    requires quote != ""
    ensures forall m :: m in r ==>
      from <= m && m + |quote| <= |content| && FoldsTo(fold, content[m..m + |quote|], quote)
    decreases |content| - from
  {
    if from + |quote| > |content| then []
    else if FoldsTo(fold, content[from..from + |quote|], quote)
    then [from] + FoldMatches(fold, quote, content, from + |quote|)
    else FoldMatches(fold, quote, content, from + 1)
  }

  function FindSource(evidence: seq<Evidence>, chunk: Id): (r: Option<Evidence>)
    ensures r.Some? ==> r.value in evidence && r.value.chunk == chunk
    ensures r.None? <==> forall e :: e in evidence ==> e.chunk != chunk
  {
    if evidence == [] then None
    else if evidence[0].chunk == chunk then Some(evidence[0])
    else FindSource(evidence[1..], chunk)
  }

  /** The verbatim form of a quote: itself, or the unique span that differs only in case. */
  function Verbatim(fold: char -> char, quote: string, content: string): (r: Option<string>)
    requires quote != ""
    ensures r.Some? ==> Contains(content, r.value) && FoldsTo(fold, r.value, quote)
    ensures Contains(content, quote) ==> r == Some(quote)
  {
    if Contains(content, quote) then Some(quote)
    else
      var matches := FoldMatches(fold, quote, content, 0);
      if |matches| != 1 then None
      else
        assert matches[0] in matches;
        var span := content[matches[0]..matches[0] + |quote|];
        assert OccursAt(content, span, matches[0]);
        Some(span)
  }

  function RepairOne(fold: char -> char, evidence: seq<Evidence>, c: Citation): (r: Option<Citation>)
    ensures r.Some? ==> r.value.chunk == c.chunk && FoldsTo(fold, r.value.quote, c.quote)
  {
    var source := FindSource(evidence, c.chunk);
    if source.None? || Blank(c.quote) then None
    else
      var quote := Verbatim(fold, c.quote, source.value.content);
      if quote.None? then None else Some(Citation(c.chunk, quote.value))
  }

  /** All citations repaired, later citations of a chunk already seen dropped. */
  function RepairAll(fold: char -> char, evidence: seq<Evidence>, cs: seq<Citation>, seen: set<Id>)
    : (r: Option<seq<Citation>>)
  {
    if cs == [] then Some([])
    else
      var first := RepairOne(fold, evidence, cs[0]);
      if first.None? then None
      else
        var rest := RepairAll(fold, evidence, cs[1..], seen + {cs[0].chunk});
        if rest.None? then None
        else Some((if cs[0].chunk in seen then [] else [first.value]) + rest.value)
  }

  // ----- the validator -----

  function Validated(fold: char -> char, d: Draft, request: Request): Result<Draft, Failure> {
    if !DraftOk(d) then Err(MODEL_OUTPUT_INVALID)
    else if d.intervention.Some? && !Derived(d, d.intervention.value) then Err(MODEL_OUTPUT_INVALID)
    else if d.intervention.Some? && d.intervention.value.situation.Ambiguous? then Ok(d)
    else if !InScope(request) then Err(RETRIEVAL_SCOPE_INVALID)
    else if d.mode.Abstain? then
      if d.grounded || d.citations != [] then Err(MODEL_OUTPUT_INVALID) else Ok(Abstention())
    else if request.evidence == [] || !d.grounded || d.citations == [] || Blank(d.answer)
    then Err(MODEL_OUTPUT_INVALID)
    else
      var repaired := RepairAll(fold, request.evidence, d.citations, {});
      if repaired.None? then Err(MODEL_OUTPUT_INVALID)
      else if d.intervention.Some?
      then Ok(DraftFrom(d.intervention.value.(citations := repaired.value)))
      else Ok(d.(citations := repaired.value))
  }

  method RepairCitation(fold: char -> char, evidence: seq<Evidence>, c: Citation)
      returns (r: Option<Citation>)
    ensures r == RepairOne(fold, evidence, c)
  {
    var source := FindSource(evidence, c.chunk);
    if source == None || Blank(c.quote) { return None; }
    var quote := c.quote;
    var content := source.value.content;
    if !Contains(content, quote) {
      var matches := FoldMatches(fold, quote, content, 0);
      if |matches| != 1 { return None; }
      assert matches[0] in matches;
      quote := content[matches[0]..matches[0] + |quote|];
    }
    return Some(Citation(c.chunk, quote));
  }

  function Prepend(done: seq<Citation>, rest: Option<seq<Citation>>): Option<seq<Citation>> {
    if rest.None? then None else Some(done + rest.value)
  }

  lemma PrependMore(done: seq<Citation>, more: seq<Citation>, rest: Option<seq<Citation>>)
    ensures Prepend(done, Prepend(more, rest)) == Prepend(done + more, rest)
  {
    if rest.Some? { assert done + (more + rest.value) == done + more + rest.value; }
  }

  lemma RepairStep(fold: char -> char, evidence: seq<Evidence>, cs: seq<Citation>, n: nat,
                   seen: set<Id>, done: seq<Citation>)
    requires n < |cs|
    ensures var one := RepairOne(fold, evidence, cs[n]);
      Prepend(done, RepairAll(fold, evidence, cs[n..], seen)) ==
      if one.None? then None
      else Prepend(if cs[n].chunk in seen then done else done + [one.value],
                   RepairAll(fold, evidence, cs[n + 1..], seen + {cs[n].chunk}))
  {
    assert cs[n..][0] == cs[n] && cs[n..][1..] == cs[n + 1..];
    var one := RepairOne(fold, evidence, cs[n]);
    if one.Some? {
      var more := if cs[n].chunk in seen then [] else [one.value];
      var rest := RepairAll(fold, evidence, cs[n + 1..], seen + {cs[n].chunk});
      assert RepairAll(fold, evidence, cs[n..], seen) == Prepend(more, rest);
      PrependMore(done, more, rest);
      assert done + [] == done;
    }
  }

  /** The loop of the code, which collects the repaired citations from the front. */
  method RepairCitations(fold: char -> char, evidence: seq<Evidence>, cs: seq<Citation>)
      returns (r: Option<seq<Citation>>)
    ensures r == RepairAll(fold, evidence, cs, {})
  {
    var seen: set<Id> := {};
    var citations: seq<Citation> := [];
    ghost var whole := RepairAll(fold, evidence, cs, {});
    assert cs[0..] == cs;
    assert whole.Some? ==> [] + whole.value == whole.value;
    for n := 0 to |cs|
      invariant Prepend(citations, RepairAll(fold, evidence, cs[n..], seen)) == whole
    {
      RepairStep(fold, evidence, cs, n, seen, citations);
      var repaired := RepairCitation(fold, evidence, cs[n]);
      if repaired == None { return None; }
      if cs[n].chunk !in seen {
        citations := citations + [repaired.value];
      }
      seen := seen + {cs[n].chunk};
    }
    assert cs[|cs|..] == [] && citations + [] == citations;
    return Some(citations);
  }

  method Validate(fold: char -> char, d: Draft, request: Request) returns (r: Result<Draft, Failure>)
    ensures r == Validated(fold, d, request)
  {
    if !DraftOk(d) { return Err(MODEL_OUTPUT_INVALID); }
    if d.intervention.Some? {
      var i := d.intervention.value;
      if d.answer != EquivalentText(i) || d.mode != ModeFor(i) || d.grounded != i.grounded
         || d.citations != i.citations || !Distinct(Chunks(i.citations)) {
        return Err(MODEL_OUTPUT_INVALID);
      }
      if i.situation == Ambiguous { return Ok(d); }
    }
    if !InScope(request) { return Err(RETRIEVAL_SCOPE_INVALID); }
    if d.mode == Abstain {
      if d.grounded || d.citations != [] { return Err(MODEL_OUTPUT_INVALID); }
      return Ok(Abstention());
    }
    if request.evidence == [] || !d.grounded || d.citations == [] {
      return Err(MODEL_OUTPUT_INVALID);
    }
    if Blank(d.answer) { return Err(MODEL_OUTPUT_INVALID); }
    var citations := RepairCitations(fold, request.evidence, d.citations);
    if citations == None { return Err(MODEL_OUTPUT_INVALID); }
    if d.intervention.Some? {
      return Ok(DraftFrom(d.intervention.value.(citations := citations.value)));
    }
    return Ok(d.(citations := citations.value));
  }

  // ----- what acceptance means -----

  /** A citation quotes its source verbatim. */
  predicate Quotes(evidence: seq<Evidence>, c: Citation) {
    exists e | e in evidence :: e.chunk == c.chunk && Contains(e.content, c.quote)
  }

  predicate IsGrounded(d: Draft, request: Request) {
    d.grounded && d.citations != [] && !Blank(d.answer) && Distinct(Chunks(d.citations)) &&
    InScope(request) && forall c | c in d.citations :: Quotes(request.evidence, c)
  }

  /** One uncited question and nothing else. */
  predicate IsClarifying(d: Draft) {
    d.mode.Clarify? && !d.grounded && d.citations == [] &&
    d.intervention.Some? && d.intervention.value.situation.Ambiguous? &&
    |d.intervention.value.blocks| == 1 && d.intervention.value.blocks[0].Question? &&
    d.answer == d.intervention.value.blocks[0].text
  }

  /** What is left after repair: verbatim quotes of well-formed size, one per chunk not yet seen. */
  predicate Repaired(evidence: seq<Evidence>, r: seq<Citation>, seen: set<Id>) {
    (forall n | 0 <= n < |r| ::
       r[n].chunk !in seen && CitationOk(r[n]) && Quotes(evidence, r[n])) &&
    forall m, n | 0 <= m < n < |r| :: r[m].chunk != r[n].chunk
  }

  lemma {:induction false} RepairSound(fold: char -> char, evidence: seq<Evidence>,
                                       cs: seq<Citation>, seen: set<Id>)
    requires forall n :: 0 <= n < |cs| ==> CitationOk(cs[n])
    requires RepairAll(fold, evidence, cs, seen).Some?
    ensures var r := RepairAll(fold, evidence, cs, seen).value;
      |r| <= |cs| && Repaired(evidence, r, seen) &&
      (cs != [] && seen == {} ==> r != [])
  {
    if cs == [] { return; }
    RepairSound(fold, evidence, cs[1..], seen + {cs[0].chunk});
    RepairOneSound(fold, evidence, cs[0]);
  }

  lemma RepairOneSound(fold: char -> char, evidence: seq<Evidence>, c: Citation)
    requires CitationOk(c) && RepairOne(fold, evidence, c).Some?
    ensures CitationOk(RepairOne(fold, evidence, c).value)
    ensures Quotes(evidence, RepairOne(fold, evidence, c).value)
  {
  }

  /** With distinct chunks nothing is dropped: same chunks, in order, with quotes of the same
      length that differ at most in case. */
  lemma {:induction false} RepairDistinct(fold: char -> char, evidence: seq<Evidence>,
                                          cs: seq<Citation>, seen: set<Id>)
    requires forall c :: c in cs ==> c.chunk !in seen
    requires Distinct(Chunks(cs)) && RepairAll(fold, evidence, cs, seen).Some?
    ensures var r := RepairAll(fold, evidence, cs, seen).value;
      |r| == |cs| && forall n :: 0 <= n < |cs| ==>
        r[n].chunk == cs[n].chunk && FoldsTo(fold, r[n].quote, cs[n].quote)
  {
    if cs == [] { return; }
    var rest := cs[1..];
    assert Chunks(rest) == Chunks(cs)[1..];
    forall d | d in rest ensures d.chunk !in seen + {cs[0].chunk} {
      var n :| 0 <= n < |rest| && rest[n] == d;
      assert Chunks(cs)[0] != Chunks(cs)[n + 1];
    }
    RepairDistinct(fold, evidence, rest, seen + {cs[0].chunk});
  }

  /** Quotes that are already verbatim stay as they are. */
  lemma {:induction false} RepairVerbatim(fold: char -> char, evidence: seq<Evidence>,
                                          cs: seq<Citation>, seen: set<Id>)
    requires forall n :: 0 <= n < |cs| ==>
      !Blank(cs[n].quote) && cs[n].chunk !in seen && Quotes(evidence, cs[n])
    requires forall m, n :: 0 <= m < n < |cs| ==> cs[m].chunk != cs[n].chunk
    requires forall x, y :: 0 <= x < y < |evidence| ==> evidence[x].chunk != evidence[y].chunk
    ensures RepairAll(fold, evidence, cs, seen) == Some(cs)
  {
    if cs == [] { return; }
    var rest := cs[1..];
    RepairOneVerbatim(fold, evidence, cs[0]);
    RepairVerbatim(fold, evidence, rest, seen + {cs[0].chunk});
    assert [cs[0]] + rest == cs;
  }

  lemma RepairOneVerbatim(fold: char -> char, evidence: seq<Evidence>, c: Citation)
    requires !Blank(c.quote) && Quotes(evidence, c)
    requires forall x, y :: 0 <= x < y < |evidence| ==> evidence[x].chunk != evidence[y].chunk
    ensures RepairOne(fold, evidence, c) == Some(c)
  {
    var e :| e in evidence && e.chunk == c.chunk && Contains(e.content, c.quote);
    FindUnique(evidence, e);
  }

  lemma {:induction false} FindUnique(evidence: seq<Evidence>, e: Evidence)
    requires e in evidence
    requires forall x, y :: 0 <= x < y < |evidence| ==> evidence[x].chunk != evidence[y].chunk
    ensures FindSource(evidence, e.chunk) == Some(e)
  {
    var n :| 0 <= n < |evidence| && evidence[n] == e;
    if n > 0 {
      assert evidence[1..][n - 1] == e;
      FindUnique(evidence[1..], e);
    }
  }

  predicate Admissible(d: Draft, request: Request) {
    DraftOk(d) && (d == Abstention() || IsClarifying(d) || IsGrounded(d, request)) &&
    (d.intervention.Some? ==> Derived(d, d.intervention.value))
  }

  lemma DistinctChunks(cs: seq<Citation>)
    ensures Distinct(Chunks(cs)) <==> forall m, n :: 0 <= m < n < |cs| ==> cs[m].chunk != cs[n].chunk
  {
    assert forall n :: 0 <= n < |cs| ==> Chunks(cs)[n] == cs[n].chunk;
  }

  /** Repairing the citations of a coherent intervention keeps the contract, the number of citations
      (so every source index stays valid), and the derived text and mode. */
  lemma RepairKeepsContract(fold: char -> char, i: Intervention, evidence: seq<Evidence>)
    requires InterventionOk(i) && Distinct(Chunks(i.citations))
    requires RepairAll(fold, evidence, i.citations, {}).Some?
    ensures var r := i.(citations := RepairAll(fold, evidence, i.citations, {}).value);
      && InterventionOk(r) && |r.citations| == |i.citations|
      && (forall n :: 0 <= n < |r.citations| ==>
            r.citations[n].chunk == i.citations[n].chunk &&
            FoldsTo(fold, r.citations[n].quote, i.citations[n].quote))
      && EquivalentText(r) == EquivalentText(i) && ModeFor(r) == ModeFor(i)
  {
    RepairDistinct(fold, evidence, i.citations, {});
    RepairSound(fold, evidence, i.citations, {});
    var r := i.(citations := RepairAll(fold, evidence, i.citations, {}).value);
    assert r.blocks == i.blocks;
    assert forall n :: 0 <= n < |i.blocks| ==> BlockText(r.blocks[n]) == BlockText(i.blocks[n]);
  }

  /** Every accepted draft is the canonical abstention, one uncited clarifying question, or a
      grounded draft whose distinct citations are verbatim spans of the evidence in scope. */
  lemma AcceptedMeans(fold: char -> char, d: Draft, request: Request)
    requires Validated(fold, d, request).Ok?
    ensures Admissible(Validated(fold, d, request).value, request)
  {
    var out := Validated(fold, d, request).value;
    if d.intervention.Some? && d.intervention.value.situation.Ambiguous? {
      var i := d.intervention.value;
      assert EquivalentText(i) == i.blocks[0].text;
    } else if !d.mode.Abstain? {
      RepairSound(fold, request.evidence, d.citations, {});
      DistinctChunks(out.citations);
      if d.intervention.Some? {
        RepairKeepsContract(fold, d.intervention.value, request.evidence);
      }
    } else {
      AbstentionOk();
    }
  }

  lemma AbstentionOk()
    ensures DraftOk(Abstention())
  {
    assert |ABSTENTION| >= 1;
  }

  /** Case folding never turns whitespace into something else, or the reverse. */
  ghost predicate FoldKeepsSpace(fold: char -> char) {
    forall a, b :: fold(a) == fold(b) ==> (IsSpace(a) <==> IsSpace(b))
  }

  lemma RepairNotBlank(fold: char -> char, evidence: seq<Evidence>, c: Citation)
    requires FoldKeepsSpace(fold) && RepairOne(fold, evidence, c).Some?
    ensures !Blank(RepairOne(fold, evidence, c).value.quote)
  {
    var r := RepairOne(fold, evidence, c).value.quote;
    var n :| 0 <= n < |c.quote| && !IsSpace(c.quote[n]);
    assert fold(r[n]) == fold(c.quote[n]);
  }

  lemma {:induction false} RepairAllNotBlank(fold: char -> char, evidence: seq<Evidence>,
                                             cs: seq<Citation>, seen: set<Id>)
    requires FoldKeepsSpace(fold) && RepairAll(fold, evidence, cs, seen).Some?
    ensures var r := RepairAll(fold, evidence, cs, seen).value;
      forall n :: 0 <= n < |r| ==> !Blank(r[n].quote)
  {
    if cs == [] { return; }
    RepairNotBlank(fold, evidence, cs[0]);
    RepairAllNotBlank(fold, evidence, cs[1..], seen + {cs[0].chunk});
  }

  /** Validating an accepted draft again changes nothing. */
  lemma ValidationIdempotent(fold: char -> char, d: Draft, request: Request)
    requires FoldKeepsSpace(fold) && Validated(fold, d, request).Ok?
    ensures Validated(fold, Validated(fold, d, request).value, request)
              == Validated(fold, d, request)
  {
    var out := Validated(fold, d, request).value;
    AcceptedMeans(fold, d, request);
    if d.intervention.Some? && d.intervention.value.situation.Ambiguous? {
    } else if d.mode.Abstain? {
    } else {
      RepairSound(fold, request.evidence, d.citations, {});
      RepairAllNotBlank(fold, request.evidence, d.citations, {});
      RepairVerbatim(fold, request.evidence, out.citations, {});
      if d.intervention.Some? {
        RepairKeepsContract(fold, d.intervention.value, request.evidence);
        var i := out.intervention.value;
        assert i.(citations := out.citations) == i;
        assert DraftFrom(i) == out;
      }
    }
  }

  /** The canonical clarification is itself accepted, unchanged, whatever the request. */
  lemma ClarificationAccepted(fold: char -> char, request: Request)
    ensures Validated(fold, Clarification(), request) == Ok(Clarification())
    ensures Clarification().mode.Clarify? && Clarification().answer == CLARIFICATION
    ensures Clarification().citations == []
  {
    var i := Clarification().intervention.value;
    assert |CLARIFICATION| == 107;
    assert i.blocks[0] == Question(CLARIFICATION) && EquivalentText(i) == CLARIFICATION;
  }
}
