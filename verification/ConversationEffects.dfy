/** What each conversation transaction, and one whole execution, does, told from the outside: which
    answer comes when, what the affected rows hold afterwards, and that nothing else changes. */
module ConversationEffects {
  import opened Options
  import opened TutorContract
  import opened ResponseValidator
  import opened ConversationRows
  import opened ConversationSystem
  import opened ConversationInvariant
  import opened ConversationPreservation
  import opened ConversationSteps
  import opened ConversationRuns

  // ----- expiry -----

  predicate InScopeOf(message: Message, x: Option<Id>) { x.None? || message.conversation == x.value }

  predicate Interrupted(r: Rows, before: Message, after: Message) {
    after.state.Failed? && after.failureCode == Some("PROCESSING_INTERRUPTED") &&
    after.completedAt == Some(r.now) && SameTurn(before, after) && after.answer == before.answer &&
    after.mode == before.mode && after.grounded == before.grounded &&
    after.intervention == before.intervention
  }

  /** Exactly the pending messages of the scope whose deadline has come are interrupted. */
  lemma ExpireMeans(r: Rows, x: Option<Id>)
    ensures var r' := ExpireTx(r, x);
      && r' == r.(messages := r'.messages) && r'.messages.Keys == r.messages.Keys
      && forall m | m in r.messages ::
           if r.messages[m].state.Pending? && r.messages[m].deadline <= r.now && InScopeOf(r.messages[m], x)
           then Interrupted(r, r.messages[m], r'.messages[m])
           else r'.messages[m] == r.messages[m]
  {
    var r' := ExpireTx(r, x);
    forall m | m in r.messages
      ensures m in r'.messages &&
        if r.messages[m].state.Pending? && r.messages[m].deadline <= r.now && InScopeOf(r.messages[m], x)
        then Interrupted(r, r.messages[m], r'.messages[m])
        else r'.messages[m] == r.messages[m]
    {
    }
  }

  // ----- accepting -----

  /** An action needs a completed turn of the conversation to act on. */
  predicate Actionable(r: Rows, x: Id, ask: Ask) {
    ask.kind.Action? ==> ask.parent.Some? && IsCompleted(r, ask.parent.value, x)
  }

  /** Before i and from j on there are only spaces, and there is none at the ends in between. */
  predicate Between(s: string, i: nat, j: nat) {
    i <= j <= |s| && (forall k | 0 <= k < |s| && (k < i || j <= k) :: s[k] == ' ') &&
    (i < j ==> s[i] != ' ' && s[j - 1] != ' ')
  }

  lemma BetweenFront(s: string, i: nat, j: nat)
    requires s != "" && s[0] == ' ' && Between(s[1..], i, j)
    ensures Between(s, i + 1, j + 1) && s[i + 1..j + 1] == s[1..][i..j]
  {
    assert forall k :: 0 < k < |s| ==> s[k] == s[1..][k - 1];
  }

  lemma {:induction false} TrimMeans(s: string) returns (i: nat, j: nat)
    ensures Between(s, i, j) && BTrim(s) == s[i..j]
    decreases |s|
  {
    if s != "" && s[0] == ' ' {
      i, j := TrimMeans(s[1..]);
      BetweenFront(s, i, j);
      i, j := i + 1, j + 1;
    } else if s != "" && s[|s| - 1] == ' ' {
      i, j := TrimMeans(s[..|s| - 1]);
    } else {
      i, j := 0, |s|;
    }
  }

  /** A question can be stored when, without the spaces around it, it has 1 to 4000 characters. */
  lemma StorableMeans(question: string) returns (i: nat, j: nat)
    ensures Between(question, i, j) && (Storable(question) <==> 1 <= j - i <= 4000)
  {
    i, j := TrimMeans(question);
  }

  predicate Fitting(ask: Ask) {
    Storable(ask.question) && (ask.kind.Action? <==> ask.parent.Some?)
  }

  /** A new pending turn is the only message more, and the next sequence number the only other change
      beside expiry. */
  predicate Appended(c: Config, r: Rows, r': Rows, x: Id, ask: Ask, id: Id) {
    x in r.conversations && x in r'.conversations && id in r'.messages && id !in r.messages &&
    var expired := ExpireTx(r, Some(x));
    r' == expired.(messages := expired.messages[id := r'.messages[id]],
                   conversations := r.conversations[x := r'.conversations[x]]) &&
    r'.conversations[x] == Conversation(r.conversations[x].course, r.conversations[x].nextSequence + 1) &&
    NewTurn(c, r, r'.messages[id], x, ask)
  }

  /** The columns of a new turn that do not depend on what it continues. */
  predicate NewTurn(c: Config, r: Rows, message: Message, x: Id, ask: Ask)
    requires x in r.conversations
  {
    var course := r.conversations[x].course;
    message.state.Pending? && NoOutcome(message) && message.conversation == x && message.course == course &&
    message.corpus == (if course in r.active then r.active[course] else None) &&
    message.sequence == r.conversations[x].nextSequence && message.key == ask.key &&
    message.question == ask.question && message.parent == ask.parent &&
    message.deadline == r.now + c.timeout
  }

  /** Which answer a request gets, from the rows before it. */
  lemma AcceptMeans(c: Config, r: Rows, x: Id, ask: Ask, id: Id, known: Option<Id>, latest: Option<Id>)
    requires RowsInv(r) && id !in r.messages
    requires known.Some? ==> HasKey(ExpireTx(r, Some(x)), known.value, x, ask.key)
    requires known.None? ==> forall m :: !HasKey(ExpireTx(r, Some(x)), m, x, ask.key)
    ensures var (r', result) := AcceptTx(c, r, x, ask, id, known, latest);
      if x !in r.conversations then result.NotFound? && r' == r
      else if exists m :: HasKey(r, m, x, ask.key) then
        known.Some? && HasKey(r, known.value, x, ask.key) &&
        (if r.messages[known.value].question == ask.question
         then result == Accepted(known.value, false) && r' == ExpireTx(r, Some(x))
         else result.KeyReused? && r' == r)
      else if exists m :: IsPending(r, m, x) && Live(r, m) then result.Busy? && r' == r
      else if !Actionable(r, x, ask) then result.InvalidParent? && r' == r
      else if !Fitting(ask) then result.Unstorable? && r' == r
      else result == Accepted(id, true) && Appended(c, r, r', x, ask, id)
  {
    ExpiryKeeps(r, x, ask.key);
    if x in r.conversations && known.None? { AcceptNew(c, r, x, ask, id, latest); }
  }

  lemma InsertAppends(c: Config, r: Rows, x: Id, ask: Ask, id: Id, turn: Turn)
    requires id !in r.messages && x in r.conversations
    ensures Appended(c, r, Insert(c, ExpireTx(r, Some(x)), x, ask, id, turn), x, ask, id)
  {
  }

  /** The answer to a request with a new key: what it is refused for, or that the turn is appended. */
  lemma AcceptNew(c: Config, r: Rows, x: Id, ask: Ask, id: Id, latest: Option<Id>)
    requires id !in r.messages && x in r.conversations
    ensures var (r', result) := AcceptTx(c, r, x, ask, id, None, latest);
      if exists m :: IsPending(r, m, x) && Live(r, m) then result.Busy? && r' == r
      else if !Actionable(r, x, ask) then result.InvalidParent? && r' == r
      else if !Fitting(ask) then result.Unstorable? && r' == r
      else result == Accepted(id, true) && Appended(c, r, r', x, ask, id)
  {
    var expired := ExpireTx(r, Some(x));
    ExpiryKeeps(r, x, ask.key);
    BusyIff(r, x);
    var turn := Classify(c, expired, x, ask, latest);
    assert turn.Some? <==> Actionable(r, x, ask);
    if turn.Some? { InsertAppends(c, r, x, ask, id, turn.value); }
  }

  lemma BusyIff(r: Rows, x: Id)
    ensures var expired := ExpireTx(r, Some(x));
      (exists m | m in expired.messages :: IsPending(expired, m, x)) <==>
      (exists m :: IsPending(r, m, x) && Live(r, m))
  {
    ExpiryKeeps(r, x, "");
    var expired := ExpireTx(r, Some(x));
    if m :| IsPending(r, m, x) && Live(r, m) { assert IsPending(expired, m, x); }
  }

  /** Expiry keeps keys and completed turns, and leaves pending exactly the live ones. */
  lemma ExpiryKeeps(r: Rows, x: Id, key: string)
    ensures var expired := ExpireTx(r, Some(x));
      forall m :: (HasKey(expired, m, x, key) <==> HasKey(r, m, x, key)) &&
                  (IsCompleted(expired, m, x) <==> IsCompleted(r, m, x)) &&
                  (IsPending(expired, m, x) <==> IsPending(r, m, x) && Live(r, m))
    ensures var expired := ExpireTx(r, Some(x));
      forall m | m in r.messages ::
        m in expired.messages && expired.messages[m].question == r.messages[m].question
  {
    var expired := ExpireTx(r, Some(x));
    ExpireMeans(r, Some(x));
    forall m ensures (HasKey(expired, m, x, key) <==> HasKey(r, m, x, key)) &&
                     (IsCompleted(expired, m, x) <==> IsCompleted(r, m, x)) &&
                     (IsPending(expired, m, x) <==> IsPending(r, m, x) && Live(r, m))
    {
      assert m in expired.messages <==> m in r.messages;
    }
  }

  // ----- evidence, completion, failure -----

  /** At most five different stored chunks of the message's own course and corpus. */
  predicate Admitted(r: Rows, message: Message, items: seq<Evidence>) {
    |items| <= 5 && Distinct(seq(|items|, i requires 0 <= i < |items| => items[i].chunk)) &&
    forall i | 0 <= i < |items| ::
      items[i].course == message.course && Some(items[i].corpus) == message.corpus &&
      items[i].chunk in r.chunks && r.chunks[items[i].chunk] == items[i]
  }

  /** Exactly these items are saved for the message, beside what was there. */
  ghost predicate SavedExactly(r: Rows, r': Rows, m: Id, items: seq<Evidence>) {
    r' == r.(evidence := r'.evidence) &&
    (forall k | k in r.evidence :: k in r'.evidence && r'.evidence[k] == r.evidence[k]) &&
    (forall i | 0 <= i < |items| ::
       EvidenceKey(m, items[i].chunk) in r'.evidence &&
       r'.evidence[EvidenceKey(m, items[i].chunk)] == items[i]) &&
    forall k | k in r'.evidence && k !in r.evidence :: k.message == m && r'.evidence[k] in items
  }

  lemma AdmittedIff(r: Rows, message: Message, items: seq<Evidence>)
    ensures Admitted(r, message, items) <==> EvidenceChecks(r, message, items)
  {
    var ids := seq(|items|, i requires 0 <= i < |items| => items[i].chunk);
    assert forall i :: 0 <= i < |items| ==> ids[i] == items[i].chunk;
  }

  lemma SaveMeans(r: Rows, m: Id, items: seq<Evidence>)
    ensures var (r', failure) := SaveEvidenceTx(r, m, items);
      if !Live(r, m) then failure == Some("PROCESSING_INTERRUPTED") && r' == r
      else if !Admitted(r, r.messages[m], items) then failure == Some("RETRIEVAL_SCOPE_INVALID") && r' == r
      else if exists i | 0 <= i < |items| :: EvidenceKey(m, items[i].chunk) in r.evidence
      then failure == Some("PERSISTENCE_UNAVAILABLE") && r' == r
      else failure.None? && SavedExactly(r, r', m, items)
  {
    if Live(r, m) {
      AdmittedIff(r, r.messages[m], items);
      if SaveEvidenceTx(r, m, items).1.None? { EvidenceMapHas(m, items); }
    }
  }

  /** Every cited chunk is saved for the turn, and none is cited twice. */
  predicate Backed(r: Rows, m: Id, cited: seq<Citation>) {
    Distinct(Chunks(cited)) && forall i | 0 <= i < |cited| :: EvidenceKey(m, cited[i].chunk) in r.evidence
  }

  predicate CompletedAs(r: Rows, r': Rows, m: Id, draft: Draft) {
    m in r.messages && m in r'.messages && m in r'.citations &&
    r' == r.(messages := r.messages[m := r'.messages[m]], citations := r.citations[m := draft.citations]) &&
    var message := r'.messages[m];
    SameTurn(r.messages[m], message) && message.state.Completed? &&
    message.answer == Some(draft.answer) && message.mode == Some(draft.mode) &&
    message.grounded == Some(draft.grounded) && message.completedAt == Some(r.now) &&
    message.failureCode == r.messages[m].failureCode &&
    (draft.intervention.Some? ==>
       message.intervention == draft.intervention &&
       message.contract == Some(draft.intervention.value.version) &&
       message.situation == Some(draft.intervention.value.situation) &&
       message.helpLevel == Some(HelpLevel(draft.intervention.value.blocks)))
  }

  lemma CompleteMeans(r: Rows, m: Id, draft: Draft)
    ensures var (r', failure) := CompleteTx(r, m, draft);
      if !Live(r, m) then failure == Some("PROCESSING_INTERRUPTED") && r' == r
      else if !Backed(r, m, draft.citations) then failure == Some("PERSISTENCE_UNAVAILABLE") && r' == r
      else failure.None? && CompletedAs(r, r', m, draft)
  {
  }

  lemma FailMeans(r: Rows, m: Id, code: string)
    ensures var r' := FailTx(r, m, code);
      if m in r.messages && r.messages[m].state.Pending? then
        m in r'.messages && r' == r.(messages := r.messages[m := r'.messages[m]]) &&
        SameTurn(r.messages[m], r'.messages[m]) && r'.messages[m].state.Failed? &&
        r'.messages[m].failureCode == Some(code) && r'.messages[m].completedAt == Some(r.now)
      else r' == r
  {
  }
}
