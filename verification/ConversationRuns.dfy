/** Tutor conversations over whole runs: turns, evidence and outcomes, for every interleaving of
    requests, executions, expiry, activation and crashes. */
module ConversationRuns {
  import opened Options
  import opened Text
  import opened TutorContract
  import opened ResponseValidator
  import opened ConversationRows
  import opened ConversationSystem
  import opened ConversationInvariant
  import opened ConversationPreservation
  import opened ConversationSteps

  lemma {:induction false} InvAt(c: Config, states: seq<State>, labels: seq<Label>, n: nat)
    requires IsRun(c, states, labels) && n <= |labels|
    ensures Inv(states[n])
  {
    if n > 0 {
      InvAt(c, states, labels, n - 1);
      assert StepAt(c, states, labels, n - 1);
      StepInv(c, states[n - 1], labels[n - 1]);
    } else {
      InitInv(states[0]);
    }
  }

  lemma RunStep(c: Config, states: seq<State>, labels: seq<Label>, i: nat)
    requires IsRun(c, states, labels) && i < |labels|
    ensures StepAt(c, states, labels, i)
    ensures Inv(states[i]) && Inv(states[i + 1]) && Grows(states[i].rows, states[i + 1].rows)
  {
    InvAt(c, states, labels, i);
    assert StepAt(c, states, labels, i);
    StepInv(c, states[i], labels[i]);
  }

  lemma StepGrows(c: Config, states: seq<State>, labels: seq<Label>, i: nat)
    requires IsRun(c, states, labels) && i < |labels|
    ensures Grows(states[i].rows, states[i + 1].rows)
  {
    RunStep(c, states, labels, i);
  }

  lemma {:induction false} GrowsBetween(c: Config, states: seq<State>, labels: seq<Label>,
                                        m: nat, n: nat)
    requires IsRun(c, states, labels) && m <= n <= |labels|
    ensures Grows(states[m].rows, states[n].rows)
    decreases n
  {
    if m < n {
      GrowsBetween(c, states, labels, m, n - 1);
      StepGrows(c, states, labels, n - 1);
      GrowsTransitive(states[m].rows, states[n - 1].rows, states[n].rows);
    } else {
      GrowsRefl(states[n].rows);
    }
  }

  // ----- turns -----

  /** At most one turn is pending, and the sequence numbers in use are exactly 1 to the next one,
      each carried by one message. */
  lemma TurnsInOrder(c: Config, states: seq<State>, labels: seq<Label>, n: nat, x: Id)
    requires IsRun(c, states, labels) && n <= |labels| && x in states[n].rows.conversations
    ensures var r := states[n].rows;
      && (forall m, o :: IsPending(r, m, x) && IsPending(r, o, x) ==> m == o)
      && (forall k: int :: Filled(r, x, k) <==> 1 <= k < r.conversations[x].nextSequence)
      && (forall k, m, o :: AtSequence(r, x, k, m) && AtSequence(r, x, k, o) ==> m == o)
  {
    var r := states[n].rows;
    InvAt(c, states, labels, n);
    assert Gapless(r, x);
    forall k: int | Filled(r, x, k) ensures 1 <= k < r.conversations[x].nextSequence {
      var m :| AtSequence(r, x, k, m);
      assert Scoped(r, m);
    }
  }

  /** A terminal turn, its outcome and its citations never change again. */
  lemma TerminalForever(c: Config, states: seq<State>, labels: seq<Label>, i: nat, j: nat, m: Id)
    requires IsRun(c, states, labels) && i <= j <= |labels|
    requires m in states[i].rows.messages && Terminal(states[i].rows.messages[m])
    ensures m in states[j].rows.messages
    ensures states[j].rows.messages[m] == states[i].rows.messages[m]
    ensures m in states[j].rows.citations <==> m in states[i].rows.citations
    ensures m in states[i].rows.citations ==>
      states[j].rows.citations[m] == states[i].rows.citations[m]
  {
    GrowsBetween(c, states, labels, i, j);
    assert MessageKept(states[i].rows, states[j].rows, m);
    InvAt(c, states, labels, i);
    InvAt(c, states, labels, j);
    assert Outcome(states[i].rows, m) && Outcome(states[j].rows, m);
  }

  /** Once a key is used in a conversation, accepting it again at any later time answers with the
      same message when the question is the same, and otherwise refuses and changes nothing. */
  lemma KeyForever(c: Config, states: seq<State>, labels: seq<Label>, i: nat, j: nat, m: Id)
    requires IsRun(c, states, labels) && i <= j < |labels|
    requires m in states[i].rows.messages && labels[j].Accept?
    requires labels[j].conversation == states[i].rows.messages[m].conversation
    requires labels[j].ask.key == states[i].rows.messages[m].key
    ensures Enabled(c, states[j], labels[j])
    ensures var (l, r) := (labels[j], states[j].rows);
      var (r', result) := AcceptTx(c, r, l.conversation, l.ask, states[j].nextId, l.known, l.latest);
      && states[j + 1].rows == r' && r'.messages.Keys == r.messages.Keys
      && (if l.ask.question == states[i].rows.messages[m].question
          then result == Accepted(m, false) && r' == ExpireTx(r, Some(l.conversation))
          else result == KeyReused && r' == r)
  {
    var (l, r) := (labels[j], states[j].rows);
    GrowsBetween(c, states, labels, i, j);
    RunStep(c, states, labels, j);
    assert MessageKept(states[i].rows, r, m);
    KeyKnown(c, states[j], l, m);
  }

  /** Accepting a key that a message has finds that message. */
  lemma KeyKnown(c: Config, s: State, l: Label, m: Id)
    requires Inv(s) && Enabled(c, s, l) && l.Accept?
    requires HasKey(s.rows, m, l.conversation, l.ask.key)
    ensures var r := s.rows;
      var (r', result) := AcceptTx(c, r, l.conversation, l.ask, s.nextId, l.known, l.latest);
      && Next(c, s, l).rows == r' && r'.messages.Keys == r.messages.Keys
      && (if l.ask.question == r.messages[m].question
          then result == Accepted(m, false) && r' == ExpireTx(r, Some(l.conversation))
          else result == KeyReused && r' == r)
  {
    var r := s.rows;
    var expired := ExpireTx(r, Some(l.conversation));
    assert Scoped(r, m);
    ExpireKeys(r, Some(l.conversation));
    ExpireSafe(r, Some(l.conversation));
    assert HasKey(expired, m, l.conversation, l.ask.key);
    assert l.known.Some? && HasKey(expired, l.known.value, l.conversation, l.ask.key);
  }

  // ----- where a turn comes from -----

  /** The step that accepted a message: what it captured of the request and of the course. A plain
      question that is one of the known phrases for a follow-up is stored as that follow-up. */
  ghost predicate AcceptedAt(c: Config, states: seq<State>, labels: seq<Label>, i: nat, m: Id,
                             message: Message)
    requires |states| == |labels| + 1
  {
    i < |labels| && labels[i].Accept? &&
    var (r, l) := (states[i].rows, labels[i]);
    m !in r.messages && l.conversation in r.conversations &&
    message.conversation == l.conversation &&
    message.question == l.ask.question && message.key == l.ask.key &&
    message.course == r.conversations[l.conversation].course &&
    message.sequence == r.conversations[l.conversation].nextSequence &&
    message.corpus == (if message.course in r.active then r.active[message.course] else None) &&
    message.deadline == r.now + c.timeout && message.parent == l.ask.parent &&
    (if l.ask.kind.QuestionTurn? && c.detect(l.ask.question).Some?
     then message.kind.Followup? && message.intent == c.detect(l.ask.question)
     else message.kind == l.ask.kind && message.intent == l.ask.intent)
  }

  lemma BornByAccept(c: Config, s: State, l: Label, m: Id)
    requires Enabled(c, s, l) && m !in s.rows.messages && m in Next(c, s, l).rows.messages
    ensures l.Accept? && m == s.nextId
    ensures AcceptedAt(c, [s, Next(c, s, l)], [l], 0, m, Next(c, s, l).rows.messages[m])
  {
  }

  lemma BornAt(c: Config, states: seq<State>, labels: seq<Label>, i: nat, m: Id)
    requires IsRun(c, states, labels) && i < |labels|
    requires m !in states[i].rows.messages && m in states[i + 1].rows.messages
    ensures AcceptedAt(c, states, labels, i, m, states[i + 1].rows.messages[m])
  {
    assert StepAt(c, states, labels, i);
    BornByAccept(c, states[i], labels[i], m);
  }

  lemma {:induction false} AcceptStep(c: Config, states: seq<State>, labels: seq<Label>, n: nat, m: Id)
    returns (i: nat)
    requires IsRun(c, states, labels) && n <= |labels| && m in states[n].rows.messages
    ensures i < n && AcceptedAt(c, states, labels, i, m, states[n].rows.messages[m])
  {
    if n == 0 {
      assert false;
    } else if m in states[n - 1].rows.messages {
      i := AcceptStep(c, states, labels, n - 1, m);
      StepGrows(c, states, labels, n - 1);
      assert MessageKept(states[n - 1].rows, states[n].rows, m);
    } else {
      BornAt(c, states, labels, n - 1, m);
      i := n - 1;
    }
  }

  // ----- how a turn ends -----

  predicate CompletedIn(r: Rows, m: Id) { m in r.messages && r.messages[m].state.Completed? }

  /** Only its own execution completes a turn, while it is live, with a draft the validator admits
      against the evidence saved for it. */
  ghost predicate CompletesWith(s: State, l: Label, r': Rows, m: Id) {
    l == Complete(m) && m in s.tasks && s.tasks[m].Completing? && Live(s.rows, m) &&
    TaskOk(s.rows, m, s.tasks[m]) && CompletedIn(r', m) && m in r'.citations &&
    var (draft, message) := (s.tasks[m].draft, r'.messages[m]);
    message.answer == Some(draft.answer) && message.mode == Some(draft.mode) &&
    message.grounded == Some(draft.grounded) && message.completedAt == Some(s.rows.now) &&
    r'.citations[m] == draft.citations
  }

  lemma CompletesOnlySo(c: Config, s: State, l: Label, m: Id)
    requires Inv(s) && Enabled(c, s, l)
    requires !CompletedIn(s.rows, m) && CompletedIn(Next(c, s, l).rows, m)
    ensures CompletesWith(s, l, Next(c, s, l).rows, m)
  {
    if l.Complete? {
      assert TaskOk(s.rows, l.message, s.tasks[l.message]);
    } else {
      OthersComplete(c, s, l, m);
    }
  }

  lemma OthersComplete(c: Config, s: State, l: Label, m: Id)
    requires Enabled(c, s, l) && !l.Complete? && !CompletedIn(s.rows, m)
    ensures !CompletedIn(Next(c, s, l).rows, m)
  {
    match l
    case Accept(x, ask, known, latest, _) => AcceptCompletes(c, s.rows, x, ask, s.nextId, known, latest, m);
    case _ =>
  }

  lemma AcceptCompletes(c: Config, r: Rows, x: Id, ask: Ask, id: Id, known: Option<Id>,
                        latest: Option<Id>, m: Id)
    requires known.Some? ==> HasKey(ExpireTx(r, Some(x)), known.value, x, ask.key)
    requires !CompletedIn(r, m)
    ensures !CompletedIn(AcceptTx(c, r, x, ask, id, known, latest).0, m)
  {
    assert !CompletedIn(ExpireTx(r, Some(x)), m);
  }

  lemma CompletesAt(c: Config, states: seq<State>, labels: seq<Label>, i: nat, m: Id)
    requires IsRun(c, states, labels) && i < |labels|
    requires !CompletedIn(states[i].rows, m) && CompletedIn(states[i + 1].rows, m)
    ensures CompletesWith(states[i], labels[i], states[i + 1].rows, m)
  {
    RunStep(c, states, labels, i);
    CompletesOnlySo(c, states[i], labels[i], m);
  }

  lemma {:induction false} CompletionStep(c: Config, states: seq<State>, labels: seq<Label>,
                                          n: nat, m: Id) returns (k: nat)
    requires IsRun(c, states, labels) && n <= |labels| && CompletedIn(states[n].rows, m)
    ensures k < n && CompletesWith(states[k], labels[k], states[k + 1].rows, m)
    ensures states[n].rows.messages[m] == states[k + 1].rows.messages[m]
    ensures m in states[n].rows.citations && states[k + 1].rows.citations[m] == states[n].rows.citations[m]
  {
    if n == 0 {
      assert false;
    } else if CompletedIn(states[n - 1].rows, m) {
      k := CompletionStep(c, states, labels, n - 1, m);
      GrowsBetween(c, states, labels, n - 1, n);
      assert MessageKept(states[n - 1].rows, states[n].rows, m);
    } else {
      k := n - 1;
      CompletesAt(c, states, labels, k, m);
    }
  }

  /** A turn that is not completed when its deadline passes never will be. */
  lemma {:induction false} LateNeverCompletes(c: Config, states: seq<State>, labels: seq<Label>,
                                              i: nat, j: nat, m: Id)
    requires IsRun(c, states, labels) && i <= j <= |labels|
    requires m in states[i].rows.messages && !CompletedIn(states[i].rows, m)
    requires states[i].rows.messages[m].deadline <= states[i].rows.now
    ensures !CompletedIn(states[j].rows, m)
    decreases j
  {
    if i < j {
      LateNeverCompletes(c, states, labels, i, j - 1, m);
      GrowsBetween(c, states, labels, i, j - 1);
      assert MessageKept(states[i].rows, states[j - 1].rows, m);
      assert !Live(states[j - 1].rows, m);
      if CompletedIn(states[j].rows, m) {
        CompletesAt(c, states, labels, j - 1, m);
        assert false;
      }
    }
  }

  /** Expiry leaves no pending turn behind its deadline: nobody is ever locked out for longer. After
      it a conversation is busy only with a turn that is still within its time. */
  lemma ExpiryUnblocks(c: Config, s: State, x: Option<Id>, m: Id)
    requires Inv(s) && m in s.rows.messages
    requires x.None? || s.rows.messages[m].conversation == x.value
    ensures var r' := ExpireTx(s.rows, x);
      && m in r'.messages && (r'.messages[m].state.Pending? ==> s.rows.now < r'.messages[m].deadline)
    ensures Overdue(s.rows, m) ==>
      var r' := ExpireTx(s.rows, x);
      r'.messages[m].state.Failed? && r'.messages[m].failureCode == Some(INTERRUPTED) && Outcome(r', m)
  {
    ExpireSafe(s.rows, x);
    assert Outcome(ExpireTx(s.rows, x), m);
  }

  /** Refusal for being busy means that some turn of the conversation is within its deadline. */
  lemma BusyMeansLive(c: Config, s: State, l: Label)
    requires Inv(s) && Enabled(c, s, l) && l.Accept?
    requires AcceptTx(c, s.rows, l.conversation, l.ask, s.nextId, l.known, l.latest).1 == Busy
    ensures exists m :: IsPending(s.rows, m, l.conversation) && Live(s.rows, m)
    ensures Next(c, s, l) == s
  {
    PendingBeforeExpiry(s.rows, l.conversation);
    var m :| m in s.rows.messages && IsPending(ExpireTx(s.rows, Some(l.conversation)), m, l.conversation);
    assert IsPending(s.rows, m, l.conversation) && Live(s.rows, m);
  }

  lemma PendingBeforeExpiry(r: Rows, x: Id)
    ensures forall m :: IsPending(ExpireTx(r, Some(x)), m, x) ==>
      m in r.messages && IsPending(r, m, x) && Live(r, m)
  {
    var expired := ExpireTx(r, Some(x));
    forall m | IsPending(expired, m, x) ensures m in r.messages && IsPending(r, m, x) && Live(r, m) {
      assert m in r.messages;
      assert expired.messages[m] == r.messages[m];
    }
  }

  // ----- evidence, end to end -----

  /** Each citation of a completed turn quotes, verbatim, the content of a chunk row of the course
      and corpus that were active when the question was accepted, whatever was activated since; and
      that chunk was retrieved and saved for this very turn. */
  lemma EvidenceEndToEnd(c: Config, states: seq<State>, labels: seq<Label>, n: nat, m: Id,
                         d: Citation)
    requires IsRun(c, states, labels) && n <= |labels| && m in states[n].rows.citations
    requires d in states[n].rows.citations[m]
    ensures var r := states[n].rows;
      && CompletedIn(r, m) && Distinct(Chunks(r.citations[m]))
      && d.chunk in r.chunks && Contains(r.chunks[d.chunk].content, d.quote)
      && EvidenceKey(m, d.chunk) in r.evidence
      && r.evidence[EvidenceKey(m, d.chunk)] == r.chunks[d.chunk]
      && exists i: nat :: i < n && AcceptedAt(c, states, labels, i, m, r.messages[m]) &&
           r.chunks[d.chunk].course in states[i].rows.active &&
           states[i].rows.active[r.chunks[d.chunk].course] == Some(r.chunks[d.chunk].corpus)
  {
    var r := states[n].rows;
    InvAt(c, states, labels, n);
    assert CitationsOk(r, m) && Cited(r, m, d) && EvidenceOk(r, EvidenceKey(m, d.chunk));
    assert Outcome(r, m);
    var i := AcceptStep(c, states, labels, n, m);
    assert AcceptedAt(c, states, labels, i, m, r.messages[m]);
  }

  /** What a completed turn shows is one admissible draft: the canonical abstention, one uncited
      question, or a grounded draft that quotes the evidence saved for it; and it was stored before
      the deadline. */
  lemma AnswersAreAdmissible(c: Config, states: seq<State>, labels: seq<Label>, n: nat, m: Id)
    requires IsRun(c, states, labels) && n <= |labels| && CompletedIn(states[n].rows, m)
    ensures var (r, message) := (states[n].rows, states[n].rows.messages[m]);
      && m in r.citations && message.completedAt.Some?
      && message.completedAt.value < message.deadline
      && exists draft: Draft, evidence: seq<Evidence> ::
           Admissible(draft, RequestOf(message, evidence)) && Saved(r, m, evidence) &&
           message.answer == Some(draft.answer) && message.mode == Some(draft.mode) &&
           message.grounded == Some(draft.grounded) && r.citations[m] == draft.citations
  {
    var (r, message) := (states[n].rows, states[n].rows.messages[m]);
    InvAt(c, states, labels, n);
    assert Outcome(r, m);
    var k := CompletionStep(c, states, labels, n, m);
    var task := states[k].tasks[m];
    GrowsBetween(c, states, labels, k, k + 1);
    GrowsBetween(c, states, labels, k, n);
    assert MessageKept(states[k].rows, states[k + 1].rows, m);
    assert Saved(r, m, task.evidence);
    assert Admissible(task.draft, RequestOf(message, task.evidence));
  }

  // ----- antecedents -----

  /** Chains of follow-ups and actions flatten: a stored retrieval query is the question of a
      strictly earlier completed turn of the conversation that has no retrieval query itself; a
      follow-up without one ends only as a clarification or failed. */
  lemma AntecedentsFlat(c: Config, states: seq<State>, labels: seq<Label>, n: nat, m: Id)
    requires IsRun(c, states, labels) && n <= |labels| && m in states[n].rows.messages
    ensures var (r, message) := (states[n].rows, states[n].rows.messages[m]);
      && (message.retrievalQuery.Some? ==> exists a :: IsAntecedent(r, message, a))
      && (NeedsAntecedent(message) && message.state.Completed? ==>
            message.mode == Some(Clarify) && message.answer == Some(CLARIFICATION) &&
            m in r.citations && r.citations[m] == [])
  {
    var (r, message) := (states[n].rows, states[n].rows.messages[m]);
    InvAt(c, states, labels, n);
    assert Flattened(r, m);
    if NeedsAntecedent(message) && message.state.Completed? {
      assert Outcome(r, m);
      ClarifyUncited(c, states, labels, n, m);
    }
  }

  /** What an action or a follow-up is stored with, seen in the rows right after its acceptance. */
  ghost predicate Derives(r: Rows, message: Message) {
    match message.kind
    case Action =>
      message.parent.Some? && IsCompleted(r, message.parent.value, message.conversation) &&
      Continues(message, r.messages[message.parent.value])
    case Followup =>
      exists latest :: IsLatest(r, message.conversation, latest) &&
        if latest.None? || Unanswered(r.messages[latest.value]) then message.retrievalQuery.None?
        else Continues(message, r.messages[latest.value])
    case QuestionTurn => message.retrievalQuery.None?
  }

  /** A turn that abstained or asked back. */
  predicate Unanswered(a: Message) { a.mode == Some(Abstain) || a.mode == Some(Clarify) }

  /** The turn looks for what `a` looked for: its query, or its question when it has none. */
  predicate Continues(message: Message, a: Message) {
    message.retrievalQuery.Some? &&
    if a.retrievalQuery.Some? && |a.retrievalQuery.value| > 0
    then message.retrievalQuery == a.retrievalQuery
    else message.retrievalQuery.value == a.question
  }

  lemma InsertDerives(c: Config, r: Rows, x: Id, ask: Ask, id: Id, turn: Turn, latest: Option<Id>)
    requires x in r.conversations && id !in r.messages && IsLatest(r, x, latest)
    requires Classify(c, r, x, ask, latest) == Some(turn)
    ensures var r' := Insert(c, r, x, ask, id, turn); Derives(r', r'.messages[id])
  {
    var r' := Insert(c, r, x, ask, id, turn);
    assert forall o :: IsCompleted(r', o, x) <==> IsCompleted(r, o, x);
    if turn.kind.Followup? {
      assert IsLatest(r', x, latest);
      assert latest.Some? ==> r'.messages[latest.value] == r.messages[latest.value];
    }
  }

  lemma AcceptDerives(c: Config, r: Rows, x: Id, ask: Ask, id: Id, known: Option<Id>,
                      latest: Option<Id>)
    requires known.Some? ==> HasKey(ExpireTx(r, Some(x)), known.value, x, ask.key)
    requires IsLatest(ExpireTx(r, Some(x)), x, latest) && id !in r.messages
    requires AcceptTx(c, r, x, ask, id, known, latest).1 == Accepted(id, true)
    ensures var r' := AcceptTx(c, r, x, ask, id, known, latest).0;
      id in r'.messages && Derives(r', r'.messages[id])
  {
    var expired := ExpireTx(r, Some(x));
    ExpireKeys(r, Some(x));
    InsertDerives(c, expired, x, ask, id, Classify(c, expired, x, ask, latest).value, latest);
  }

  lemma DerivesAtBirth(c: Config, s: State, l: Label, m: Id)
    requires Inv(s) && Enabled(c, s, l) && m !in s.rows.messages && m in Next(c, s, l).rows.messages
    ensures Derives(Next(c, s, l).rows, Next(c, s, l).rows.messages[m])
  {
    BornByAccept(c, s, l, m);
    ExpireKeys(s.rows, Some(l.conversation));
    AcceptDerives(c, s.rows, l.conversation, l.ask, s.nextId, l.known, l.latest);
  }

  lemma DerivesAt(c: Config, states: seq<State>, labels: seq<Label>, i: nat, m: Id)
    requires IsRun(c, states, labels) && i < |labels|
    requires m !in states[i].rows.messages && m in states[i + 1].rows.messages
    ensures Derives(states[i + 1].rows, states[i + 1].rows.messages[m])
  {
    RunStep(c, states, labels, i);
    DerivesAtBirth(c, states[i], labels[i], m);
  }

  /** An action belongs to an earlier completed turn of its conversation for ever, and asks for the
      same material: the parent's own query, or its question. A plain question derives nothing. */
  lemma {:induction false} ActionFollowsParent(c: Config, states: seq<State>, labels: seq<Label>,
                                               n: nat, m: Id)
    requires IsRun(c, states, labels) && n <= |labels| && m in states[n].rows.messages
    requires !states[n].rows.messages[m].kind.Followup?
    ensures Derives(states[n].rows, states[n].rows.messages[m])
  {
    if n == 0 {
      assert false;
    } else if m in states[n - 1].rows.messages {
      StepGrows(c, states, labels, n - 1);
      assert MessageKept(states[n - 1].rows, states[n].rows, m);
      ActionFollowsParent(c, states, labels, n - 1, m);
      if states[n].rows.messages[m].kind.Action? {
        assert MessageKept(states[n - 1].rows, states[n].rows, states[n].rows.messages[m].parent.value);
      }
    } else {
      DerivesAt(c, states, labels, n - 1, m);
    }
  }

  /** A follow-up inherits from the newest turn completed when it was accepted, unless that abstained
      or asked back; every turn keeps what it was accepted with. */
  lemma {:induction false} AcceptedDeriving(c: Config, states: seq<State>, labels: seq<Label>,
                                            n: nat, m: Id) returns (i: nat)
    requires IsRun(c, states, labels) && n <= |labels| && m in states[n].rows.messages
    ensures i < n && AcceptedAt(c, states, labels, i, m, states[n].rows.messages[m])
    ensures Derives(states[i + 1].rows, states[n].rows.messages[m])
  {
    if n == 0 {
      assert false;
    } else if m in states[n - 1].rows.messages {
      StepGrows(c, states, labels, n - 1);
      assert MessageKept(states[n - 1].rows, states[n].rows, m);
      i := AcceptedDeriving(c, states, labels, n - 1, m);
    } else {
      i := n - 1;
      BornAt(c, states, labels, i, m);
      DerivesAt(c, states, labels, i, m);
    }
  }

  /** A follow-up without an antecedent carries the canonical clarification through to the end. */
  lemma ClarifyUncited(c: Config, states: seq<State>, labels: seq<Label>, n: nat, m: Id)
    requires IsRun(c, states, labels) && n <= |labels| && CompletedIn(states[n].rows, m)
    requires NeedsAntecedent(states[n].rows.messages[m])
    ensures m in states[n].rows.citations && states[n].rows.citations[m] == []
    ensures states[n].rows.messages[m].answer == Some(CLARIFICATION)
  {
    var k := CompletionStep(c, states, labels, n, m);
    GrowsBetween(c, states, labels, k, k + 1);
    assert MessageKept(states[k].rows, states[k + 1].rows, m);
  }

  // ----- evidence is saved once -----

  ghost predicate NoEvidence(r: Rows, m: Id) { forall k | k in r.evidence :: k.message != m }

  /** An execution that has not saved its evidence yet finds none of it there. */
  ghost predicate Unsaved(s: State) {
    forall m {:trigger NoEvidence(s.rows, m)} | m in s.tasks &&
      (s.tasks[m].Starting? || s.tasks[m].Retrieving? || s.tasks[m].Saving?) :: NoEvidence(s.rows, m)
  }

  lemma SaveElsewhere(r: Rows, m: Id, items: seq<Evidence>, o: Id)
    requires NoEvidence(r, o) && o != m
    ensures NoEvidence(SaveEvidenceTx(r, m, items).0, o)
  {
    if SaveEvidenceTx(r, m, items).1.None? { EvidenceMapHas(m, items); }
  }

  lemma EvidenceStep(c: Config, s: State, l: Label, m: Id)
    requires Enabled(c, s, l) && NoEvidence(s.rows, m) && l != SaveEvidence(m)
    ensures NoEvidence(Next(c, s, l).rows, m)
  {
    if l.SaveEvidence? {
      SaveElsewhere(s.rows, l.message, s.tasks[l.message].evidence, m);
    } else {
      assert Next(c, s, l).rows.evidence == s.rows.evidence;
    }
  }

  lemma StepUnsaved(c: Config, s: State, l: Label)
    requires Inv(s) && Enabled(c, s, l) && Unsaved(s)
    ensures Unsaved(Next(c, s, l))
  {
    var s' := Next(c, s, l);
    forall m | m in s'.tasks && (s'.tasks[m].Starting? || s'.tasks[m].Retrieving? || s'.tasks[m].Saving?)
      ensures NoEvidence(s'.rows, m)
    {
      if m in s.tasks {
        assert NoEvidence(s.rows, m);
      } else {
        forall k | k in s.rows.evidence ensures k.message != m { assert EvidenceOk(s.rows, k); }
      }
      EvidenceStep(c, s, l, m);
    }
  }

  lemma {:induction false} UnsavedAt(c: Config, states: seq<State>, labels: seq<Label>, n: nat)
    requires IsRun(c, states, labels) && n <= |labels|
    ensures Unsaved(states[n])
  {
    if n > 0 {
      UnsavedAt(c, states, labels, n - 1);
      RunStep(c, states, labels, n - 1);
      StepUnsaved(c, states[n - 1], labels[n - 1]);
    }
  }

  /** Saving evidence never meets evidence already saved for its turn. */
  lemma SavedOnce(c: Config, states: seq<State>, labels: seq<Label>, i: nat)
    requires IsRun(c, states, labels) && i < |labels| && labels[i].SaveEvidence?
    ensures labels[i].message in states[i].tasks && states[i].tasks[labels[i].message].Saving?
    ensures SaveEvidenceTx(states[i].rows, labels[i].message,
                           states[i].tasks[labels[i].message].evidence).1 != Some(PERSISTENCE)
  {
    UnsavedAt(c, states, labels, i);
    assert StepAt(c, states, labels, i);
    assert NoEvidence(states[i].rows, labels[i].message);
  }

  /** The stored outcome of a turn is consistent: its flat columns and its citations are the ones its
      structured intervention implies, and an unfinished or failed turn has none of them. */
  lemma StoredAgrees(c: Config, states: seq<State>, labels: seq<Label>, n: nat, m: Id)
    requires IsRun(c, states, labels) && n <= |labels| && m in states[n].rows.messages
    ensures var (r, message) := (states[n].rows, states[n].rows.messages[m]);
      if message.state.Completed? then m in r.citations && Agrees(message, r.citations[m])
      else NoOutcome(message) && m !in r.citations
  {
    InvAt(c, states, labels, n);
    assert Outcome(states[n].rows, m);
  }
}
