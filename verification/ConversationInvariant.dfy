/** What holds of conversations, and of every turn being executed, after every step. */
module ConversationInvariant {
  import opened Options
  import opened Text
  import opened TutorContract
  import opened ResponseValidator
  import opened ConversationRows
  import opened ConversationSystem

  predicate Terminal(message: Message) { message.state.Completed? || message.state.Failed? }

  // ----- one message at a time -----

  /** The columns written at acceptance and never again. */
  predicate SameTurn(a: Message, b: Message) {
    b == a.(state := b.state, answer := b.answer, mode := b.mode, grounded := b.grounded,
            intervention := b.intervention, contract := b.contract, situation := b.situation,
            helpLevel := b.helpLevel, failureCode := b.failureCode, completedAt := b.completedAt)
  }

  predicate Scoped(rows: Rows, m: Id) {
    m in rows.messages &&
    var message := rows.messages[m];
    message.conversation in rows.conversations &&
    message.course == rows.conversations[message.conversation].course &&
    1 <= message.sequence < rows.conversations[message.conversation].nextSequence &&
    Storable(message.question) &&
    (message.corpus.Some? ==>
       message.corpus.value in rows.corpora && rows.corpora[message.corpus.value] == message.course)
  }

  /** The flat columns and the citations are the ones the stored intervention implies. */
  predicate Agrees(message: Message, cited: seq<Citation>) {
    if message.intervention.None? then
      message.contract.None? && message.situation.None? && message.helpLevel.None?
    else
      var i := message.intervention.value;
      message.answer == Some(EquivalentText(i)) && message.mode == Some(ModeFor(i)) &&
      message.grounded == Some(i.grounded) && cited == i.citations &&
      message.contract == Some(i.version) && message.situation == Some(i.situation) &&
      message.helpLevel == Some(HelpLevel(i.blocks))
  }

  predicate NoOutcome(message: Message) {
    message.answer.None? && message.mode.None? && message.grounded.None? &&
    message.intervention.None? && Agrees(message, [])
  }

  /** A pending turn has no outcome; a completed one was completed before its deadline. */
  predicate Outcome(rows: Rows, m: Id) {
    m in rows.messages &&
    var message := rows.messages[m];
    match message.state
    case Pending =>
      NoOutcome(message) && message.failureCode.None? && message.completedAt.None? && m !in rows.citations
    case Failed =>
      NoOutcome(message) && message.failureCode.Some? && message.completedAt.Some? && m !in rows.citations
    case Completed =>
      message.answer.Some? && message.mode.Some? && message.grounded.Some? &&
      message.failureCode.None? && message.completedAt.Some? &&
      message.completedAt.value < message.deadline && m in rows.citations &&
      Agrees(message, rows.citations[m]) &&
      (NeedsAntecedent(message) ==> message.mode == Some(Clarify))
  }

  predicate IsAntecedent(rows: Rows, message: Message, a: Id) {
    a in rows.messages &&
    rows.messages[a].conversation == message.conversation &&
    rows.messages[a].sequence < message.sequence &&
    rows.messages[a].retrievalQuery.None? && rows.messages[a].state.Completed? &&
    message.retrievalQuery == Some(rows.messages[a].question)
  }

  ghost predicate Flattened(rows: Rows, m: Id) {
    m in rows.messages &&
    (rows.messages[m].retrievalQuery.Some? ==>
       exists a :: IsAntecedent(rows, rows.messages[m], a))
  }

  // ----- evidence and citations -----

  predicate ChunkOk(rows: Rows, k: Id) {
    k in rows.chunks && rows.chunks[k].chunk == k && rows.chunks[k].corpus in rows.corpora &&
    rows.corpora[rows.chunks[k].corpus] == rows.chunks[k].course
  }

  /** Saved evidence is a chunk row of the corpus the message captured. */
  predicate EvidenceOk(rows: Rows, k: EvidenceKey) {
    k in rows.evidence && k.message in rows.messages && k.chunk in rows.chunks &&
    rows.evidence[k] == rows.chunks[k.chunk] &&
    rows.evidence[k].course == rows.messages[k.message].course &&
    Some(rows.evidence[k].corpus) == rows.messages[k.message].corpus
  }

  predicate Cited(rows: Rows, m: Id, c: Citation) {
    EvidenceKey(m, c.chunk) in rows.evidence &&
    Contains(rows.evidence[EvidenceKey(m, c.chunk)].content, c.quote)
  }

  predicate CitationsOk(rows: Rows, m: Id) {
    m in rows.citations && m in rows.messages && Distinct(Chunks(rows.citations[m])) &&
    forall c | c in rows.citations[m] :: Cited(rows, m, c)
  }

  // ----- the turns together -----

  predicate AtSequence(rows: Rows, x: Id, n: int, m: Id) {
    m in rows.messages && rows.messages[m].conversation == x && rows.messages[m].sequence == n
  }

  ghost predicate Unique(rows: Rows) {
    && (forall x, m, o {:trigger IsPending(rows, m, x), IsPending(rows, o, x)} |
          IsPending(rows, m, x) && IsPending(rows, o, x) :: m == o)
    && (forall x, n, m, o {:trigger AtSequence(rows, x, n, m), AtSequence(rows, x, n, o)} |
          AtSequence(rows, x, n, m) && AtSequence(rows, x, n, o) :: m == o)
    && (forall x, key, m, o {:trigger HasKey(rows, m, x, key), HasKey(rows, o, x, key)} |
          HasKey(rows, m, x, key) && HasKey(rows, o, x, key) :: m == o)
  }

  ghost predicate Gapless(rows: Rows, x: Id) {
    x in rows.conversations && 1 <= rows.conversations[x].nextSequence &&
    forall n {:trigger Filled(rows, x, n)} | 1 <= n < rows.conversations[x].nextSequence ::
      Filled(rows, x, n)
  }

  ghost predicate Filled(rows: Rows, x: Id, n: int) { exists m :: AtSequence(rows, x, n, m) }

  ghost predicate MessagesOk(rows: Rows) {
    forall m {:trigger Scoped(rows, m)} {:trigger Outcome(rows, m)} {:trigger Flattened(rows, m)} |
      m in rows.messages :: Scoped(rows, m) && Outcome(rows, m) && Flattened(rows, m)
  }

  ghost predicate SourcesOk(rows: Rows) {
    && (forall k {:trigger ChunkOk(rows, k)} | k in rows.chunks :: ChunkOk(rows, k))
    && (forall k {:trigger EvidenceOk(rows, k)} | k in rows.evidence :: EvidenceOk(rows, k))
    && (forall m {:trigger CitationsOk(rows, m)} | m in rows.citations :: CitationsOk(rows, m))
    && (forall x | x in rows.active && rows.active[x].Some? ::
          rows.active[x].value in rows.corpora && rows.corpora[rows.active[x].value] == x)
  }

  ghost predicate RowsInv(rows: Rows) {
    MessagesOk(rows) && SourcesOk(rows) && Unique(rows) &&
    forall x {:trigger Gapless(rows, x)} | x in rows.conversations :: Gapless(rows, x)
  }

  // ----- the executions in flight -----

  /** The evidence an execution works with is the evidence saved for its message. */
  predicate Saved(rows: Rows, m: Id, evidence: seq<Evidence>) {
    forall e | e in evidence ::
      EvidenceKey(m, e.chunk) in rows.evidence && rows.evidence[EvidenceKey(m, e.chunk)] == e
  }

  predicate TaskOk(rows: Rows, m: Id, task: Task) {
    m in rows.messages &&
    var message := rows.messages[m];
    match task
    case Starting | Failing(_) => true
    case Retrieving | Saving(_) => message.corpus.Some? && !NeedsAntecedent(message)
    case Generating(evidence) =>
      message.corpus.Some? && !NeedsAntecedent(message) && Saved(rows, m, evidence)
    case Validating(draft, evidence) =>
      message.corpus.Some? && Saved(rows, m, evidence) &&
      (NeedsAntecedent(message) ==> draft == Clarification())
    case Completing(draft, evidence) =>
      message.corpus.Some? && Saved(rows, m, evidence) &&
      Admissible(draft, RequestOf(message, evidence)) &&
      (NeedsAntecedent(message) ==> draft == Clarification())
  }

  ghost predicate TasksOk(s: State) {
    forall m {:trigger s.tasks[m]} | m in s.tasks :: TaskOk(s.rows, m, s.tasks[m])
  }

  ghost predicate IdsUsed(s: State) {
    && (forall m :: m in s.rows.messages ==> m < s.nextId)
    && (forall x :: x in s.rows.conversations ==> x < s.nextId)
    && (forall k :: k in s.rows.chunks ==> k < s.nextId)
    && (forall k :: k in s.rows.corpora ==> k < s.nextId)
    && (forall x :: x in s.rows.active ==> x < s.nextId)
  }

  ghost predicate Inv(s: State) { RowsInv(s.rows) && TasksOk(s) && IdsUsed(s) }

  // ----- what never changes -----

  predicate MessageKept(r: Rows, r': Rows, m: Id) {
    m in r.messages && m in r'.messages && SameTurn(r.messages[m], r'.messages[m]) &&
    (Terminal(r.messages[m]) ==> r'.messages[m] == r.messages[m]) &&
    (m in r.citations ==> m in r'.citations && r'.citations[m] == r.citations[m])
  }

  ghost predicate Grows(r: Rows, r': Rows) {
    && r.now <= r'.now
    && (forall m {:trigger MessageKept(r, r', m)} | m in r.messages :: MessageKept(r, r', m))
    && (forall x | x in r.conversations ::
          x in r'.conversations && r'.conversations[x].course == r.conversations[x].course &&
          r.conversations[x].nextSequence <= r'.conversations[x].nextSequence)
    && (forall k | k in r.chunks :: k in r'.chunks && r'.chunks[k] == r.chunks[k])
    && (forall k | k in r.corpora :: k in r'.corpora && r'.corpora[k] == r.corpora[k])
    && (forall k | k in r.evidence :: k in r'.evidence && r'.evidence[k] == r.evidence[k])
  }
}
