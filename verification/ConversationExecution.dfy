/** One execution of a turn that nothing interrupts: for every answer of the retriever and every output
    of the model it ends, and how. */
module ConversationExecution {
  import opened Options
  import opened TutorContract
  import opened ResponseValidator
  import opened ConversationRows
  import opened ConversationSystem
  import opened ConversationInvariant
  import opened ConversationPreservation
  import opened ConversationSteps
  import opened ConversationRuns
  import opened ConversationEffects

  /** A step of the execution, skipped where the code does not get to it. */
  ghost function Do(c: Config, s: State, l: Label): State {
    if Enabled(c, s, l) then Next(c, s, l) else s
  }

  /** The rest of an execution once its draft is to be validated, or it is failing. */
  ghost function Conclude(c: Config, s: State, m: Id): State {
    Do(c, Do(c, Do(c, s, Validate(m)), Complete(m)), RecordFailure(m))
  }

  /** `_pipeline` from start to end. */
  ghost function Execute(c: Config, s: State, m: Id, found: seq<Evidence>, output: Draft): State {
    var requested := Do(c, s, BuildRequest(m));
    var saved := Do(c, Do(c, requested, Retrieve(m, found)), SaveEvidence(m));
    Conclude(c, Do(c, saved, Generate(m, output)), m)
  }

  // ----- how it ends -----

  predicate FailedWith(s: State, t: State, m: Id, code: string) {
    m !in t.tasks && m in t.rows.messages && m in s.rows.messages && m !in t.rows.citations &&
    SameTurn(s.rows.messages[m], t.rows.messages[m]) &&
    t.rows.messages[m].state.Failed? && t.rows.messages[m].failureCode == Some(code)
  }

  predicate CompletedWith(s: State, t: State, m: Id, draft: Draft) {
    m !in t.tasks && m in t.rows.messages && m in s.rows.messages && m in t.rows.citations &&
    SameTurn(s.rows.messages[m], t.rows.messages[m]) &&
    t.rows.citations[m] == draft.citations &&
    var message := t.rows.messages[m];
    message.state.Completed? && message.answer == Some(draft.answer) &&
    message.mode == Some(draft.mode) && message.grounded == Some(draft.grounded) &&
    message.intervention == draft.intervention
  }

  // ----- the last steps -----

  /** The turn is pending and in time. */
  ghost predicate Open(s: State, m: Id) { Inv(s) && Live(s.rows, m) && m in s.tasks }

  lemma Fails(c: Config, s: State, m: Id)
    requires Open(s, m) && s.tasks[m].Failing?
    ensures FailedWith(s, Conclude(c, s, m), m, s.tasks[m].code)
  {
    assert Outcome(s.rows, m);
    var s1 := Do(c, s, Validate(m));
    assert s1 == s && Do(c, s1, Complete(m)) == s;
    FailMeans(s.rows, m, s.tasks[m].code);
  }

  lemma Completes(c: Config, s: State, m: Id)
    requires Open(s, m) && s.tasks[m].Completing?
    ensures CompletedWith(s, Do(c, Do(c, s, Complete(m)), RecordFailure(m)), m, s.tasks[m].draft)
  {
    var draft, evidence := s.tasks[m].draft, s.tasks[m].evidence;
    assert TaskOk(s.rows, m, s.tasks[m]) && Outcome(s.rows, m);
    CitesSaved(s.rows, m, draft, evidence);
    CompleteMeans(s.rows, m, draft);
    AdmissibleDistinct(draft, RequestOf(s.rows.messages[m], evidence));
    forall i | 0 <= i < |draft.citations|
      ensures EvidenceKey(m, draft.citations[i].chunk) in s.rows.evidence
    {
      assert Cited(s.rows, m, draft.citations[i]);
    }
    var t := Next(c, s, Complete(m));
    assert Do(c, t, RecordFailure(m)) == t;
  }

  lemma AdmissibleDistinct(draft: Draft, request: Request)
    requires Admissible(draft, request)
    ensures Distinct(Chunks(draft.citations))
  {
  }

  /** A draft that is validated is stored as the validator leaves it, or fails with its code. */
  lemma Concludes(c: Config, s: State, m: Id)
    requires Open(s, m) && s.tasks[m].Validating?
    ensures var verdict := Validated(c.fold, s.tasks[m].draft,
                                     RequestOf(s.rows.messages[m], s.tasks[m].evidence));
      match verdict
      case Ok(draft) => CompletedWith(s, Conclude(c, s, m), m, draft)
      case Err(f) => FailedWith(s, Conclude(c, s, m), m, FailureCode(f))
  {
    var t := Next(c, s, Validate(m));
    assert Do(c, s, Validate(m)) == t && t.rows == s.rows;
    StepInv(c, s, Validate(m));
    if t.tasks[m].Completing? {
      Completes(c, t, m);
    } else {
      Fails(c, t, m);
      assert Do(c, t, Validate(m)) == t;
    }
  }

  // ----- the whole -----

  lemma Refused(c: Config, s: State, m: Id, found: seq<Evidence>, output: Draft)
    requires Open(s, m) && s.tasks[m].Starting? && s.rows.messages[m].corpus.None?
    ensures FailedWith(s, Execute(c, s, m, found, output), m, "COURSE_CORPUS_NOT_READY")
  {
    var t := Next(c, s, BuildRequest(m));
    StepInv(c, s, BuildRequest(m));
    assert Do(c, Do(c, t, Retrieve(m, found)), SaveEvidence(m)) == t;
    assert Do(c, t, Generate(m, output)) == t;
    Fails(c, t, m);
  }

  /** Without an antecedent nothing is retrieved: the turn ends with the canonical question. */
  lemma AsksBack(c: Config, s: State, m: Id, found: seq<Evidence>, output: Draft)
    requires Open(s, m) && s.tasks[m].Starting? && s.rows.messages[m].corpus.Some?
    requires NeedsAntecedent(s.rows.messages[m])
    ensures CompletedWith(s, Execute(c, s, m, found, output), m, Clarification())
  {
    var t := Next(c, s, BuildRequest(m));
    StepInv(c, s, BuildRequest(m));
    assert Do(c, Do(c, t, Retrieve(m, found)), SaveEvidence(m)) == t;
    assert Do(c, t, Generate(m, output)) == t;
    ClarificationAccepted(c.fold, RequestOf(s.rows.messages[m], []));
    Concludes(c, t, m);
  }

  /** The state in which the evidence is to be saved. */
  lemma ToSaving(c: Config, s: State, m: Id, found: seq<Evidence>) returns (t: State)
    requires Open(s, m) && s.tasks[m].Starting? && s.rows.messages[m].corpus.Some?
    requires !NeedsAntecedent(s.rows.messages[m]) && Unsaved(s)
    ensures t == Do(c, Do(c, s, BuildRequest(m)), Retrieve(m, found))
    ensures Open(t, m) && t.tasks[m] == Saving(found) && t.rows == s.rows && NoEvidence(t.rows, m)
  {
    var s1 := Next(c, s, BuildRequest(m));
    StepInv(c, s, BuildRequest(m));
    StepInv(c, s1, Retrieve(m, found));
    t := Next(c, s1, Retrieve(m, found));
    assert NoEvidence(s.rows, m);
  }

  lemma OutOfScope(c: Config, t: State, m: Id, found: seq<Evidence>, output: Draft)
    requires Open(t, m) && t.tasks[m] == Saving(found) && !Admitted(t.rows, t.rows.messages[m], found)
    ensures var u := Do(c, Do(c, t, SaveEvidence(m)), Generate(m, output));
      FailedWith(t, Conclude(c, u, m), m, "RETRIEVAL_SCOPE_INVALID")
  {
    SaveMeans(t.rows, m, found);
    var u := Next(c, t, SaveEvidence(m));
    StepInv(c, t, SaveEvidence(m));
    assert Do(c, u, Generate(m, output)) == u;
    Fails(c, u, m);
  }

  /** Saved evidence goes to the model; no evidence goes to the canonical abstention. */
  lemma Answers(c: Config, t: State, m: Id, found: seq<Evidence>, output: Draft)
    requires Open(t, m) && t.tasks[m] == Saving(found) && Admitted(t.rows, t.rows.messages[m], found)
    requires NoEvidence(t.rows, m)
    ensures var u := Do(c, Do(c, t, SaveEvidence(m)), Generate(m, output));
      var draft := if found == [] then Abstention() else output;
      && Open(u, m) && u.tasks[m] == Validating(draft, found)
      && SavedExactly(t.rows, u.rows, m, found)
  {
    SaveMeans(t.rows, m, found);
    var s1 := Next(c, t, SaveEvidence(m));
    StepInv(c, t, SaveEvidence(m));
    if found != [] { StepInv(c, s1, Generate(m, output)); }
  }

  lemma AbstentionAccepted(fold: char -> char, request: Request)
    requires request.evidence == []
    ensures Validated(fold, Abstention(), request) == Ok(Abstention())
  {
    AbstentionOk();
  }

  /** From every state in which a turn in time is about to be executed: for every answer of the
      retriever and every output of the model the execution ends, as follows. */
  lemma ExecutionMeans(c: Config, s: State, m: Id, found: seq<Evidence>, output: Draft)
    requires Inv(s) && Unsaved(s) && m in s.tasks && s.tasks[m].Starting? && Live(s.rows, m)
    ensures var (t, message) := (Execute(c, s, m, found, output), s.rows.messages[m]);
      if message.corpus.None? then FailedWith(s, t, m, "COURSE_CORPUS_NOT_READY")
      else if NeedsAntecedent(message) then CompletedWith(s, t, m, Clarification())
      else if !Admitted(s.rows, message, found) then FailedWith(s, t, m, "RETRIEVAL_SCOPE_INVALID")
      else if found == [] then CompletedWith(s, t, m, Abstention())
      else match Validated(c.fold, output, RequestOf(message, found))
        case Ok(draft) => CompletedWith(s, t, m, draft)
        case Err(f) => FailedWith(s, t, m, FailureCode(f))
  {
    var message := s.rows.messages[m];
    if message.corpus.None? {
      Refused(c, s, m, found, output);
    } else if NeedsAntecedent(message) {
      AsksBack(c, s, m, found, output);
    } else {
      var t := ToSaving(c, s, m, found);
      if !Admitted(s.rows, message, found) {
        OutOfScope(c, t, m, found, output);
      } else {
        Answers(c, t, m, found, output);
        if found == [] { AbstentionAccepted(c.fold, RequestOf(message, found)); }
        Concludes(c, Do(c, Do(c, t, SaveEvidence(m)), Generate(m, output)), m);
      }
    }
  }
}
