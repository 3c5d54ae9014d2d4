/** The rows of tutor conversations and the transactions over them. One function is one transaction;
    an error that the code raises inside a transaction rolls it back, so it leaves the rows alone. */
module ConversationRows {
  import opened Options
  import opened TutorContract
  import opened ResponseValidator

  type Time = nat

  datatype Config = Config(timeout: Time, detect: string -> Option<Intent>, fold: char -> char)

  datatype MessageState = Pending | Completed | Failed
  datatype TurnKind = QuestionTurn | Followup | Action
  datatype Intent = AnotherHint | Explain | DontKnow

  const INTERRUPTED := "PROCESSING_INTERRUPTED"
  const NOT_READY := "COURSE_CORPUS_NOT_READY"
  const SCOPE_INVALID := "RETRIEVAL_SCOPE_INVALID"
  const OUTPUT_INVALID := "MODEL_OUTPUT_INVALID"
  const PERSISTENCE := "PERSISTENCE_UNAVAILABLE"

  datatype Conversation = Conversation(course: Id, nextSequence: nat)

  datatype Message = Message(
    conversation: Id, course: Id, corpus: Option<Id>, sequence: nat,
    key: string, question: string, kind: TurnKind, intent: Option<Intent>, parent: Option<Id>,
    retrievalQuery: Option<string>, deadline: Time,
    state: MessageState, answer: Option<string>, mode: Option<Mode>, grounded: Option<bool>,
    intervention: Option<Intervention>, contract: Option<Version>, situation: Option<Situation>,
    helpLevel: Option<int>,
    failureCode: Option<string>, completedAt: Option<Time>)

  datatype EvidenceKey = EvidenceKey(message: Id, chunk: Id)

  /** `active` maps a course to its active READY corpus; `corpora` a READY corpus to its course;
      `chunks` is the chunk row joined with its version and document, as retrieval presents it. */
  datatype Rows = Rows(
    now: Time,
    active: map<Id, Option<Id>>,
    corpora: map<Id, Id>,
    chunks: map<Id, Evidence>,
    conversations: map<Id, Conversation>,
    messages: map<Id, Message>,
    evidence: map<EvidenceKey, Evidence>,
    citations: map<Id, seq<Citation>>)

  // ----- expiry -----

  predicate Overdue(rows: Rows, m: Id) {
    m in rows.messages && rows.messages[m].state.Pending? && rows.messages[m].deadline <= rows.now
  }

  function AsFailed(rows: Rows, message: Message, code: string): Message {
    message.(state := Failed, failureCode := Some(code), completedAt := Some(rows.now))
  }

  /** `_expire`: of one conversation, or of all of them for the reaper. */
  function ExpireTx(rows: Rows, conversation: Option<Id>): Rows {
    rows.(messages := map m | m in rows.messages ::
      if Overdue(rows, m) &&
         (conversation.None? || rows.messages[m].conversation == conversation.value)
      then AsFailed(rows, rows.messages[m], INTERRUPTED)
      else rows.messages[m])
  }

  // ----- accepting a turn -----

  datatype AcceptResult = Accepted(message: Id, created: bool)
                        | KeyReused | Busy | InvalidParent | NotFound | Unstorable

  predicate HasKey(rows: Rows, m: Id, conversation: Id, key: string) {
    m in rows.messages && rows.messages[m].conversation == conversation &&
    rows.messages[m].key == key
  }

  predicate IsPending(rows: Rows, m: Id, conversation: Id) {
    m in rows.messages && rows.messages[m].conversation == conversation &&
    rows.messages[m].state.Pending?
  }

  predicate IsCompleted(rows: Rows, m: Id, conversation: Id) {
    m in rows.messages && rows.messages[m].conversation == conversation &&
    rows.messages[m].state.Completed?
  }

  /** ORDER BY sequence DESC LIMIT 1 over the completed turns. */
  ghost predicate IsLatest(rows: Rows, conversation: Id, latest: Option<Id>) {
    if latest.None? then forall m :: !IsCompleted(rows, m, conversation)
    else IsCompleted(rows, latest.value, conversation) &&
         forall m :: IsCompleted(rows, m, conversation) ==>
           rows.messages[m].sequence <= rows.messages[latest.value].sequence
  }

  /** `antecedent.retrieval_query or antecedent.question`: an empty query counts as none. */
  function Resolved(antecedent: Message): string {
    if antecedent.retrievalQuery.Some? && antecedent.retrievalQuery.value != ""
    then antecedent.retrievalQuery.value else antecedent.question
  }

  function FollowupQuery(rows: Rows, latest: Option<Id>): Option<string> {
    if latest.None? || latest.value !in rows.messages then None
    else
      var a := rows.messages[latest.value];
      if a.mode == Some(Abstain) || a.mode == Some(Clarify) then None else Some(Resolved(a))
  }

  datatype Ask = Ask(question: string, key: string, kind: TurnKind, intent: Option<Intent>,
                     parent: Option<Id>)

  /** The kind, intent and retrieval query a new turn is stored with; None is an invalid parent. */
  datatype Turn = Turn(kind: TurnKind, intent: Option<Intent>, query: Option<string>)

  function Classify(c: Config, rows: Rows, conversation: Id, ask: Ask, latest: Option<Id>)
    : Option<Turn>
  {
    match ask.kind
    case Action =>
      if ask.parent.None? || !IsCompleted(rows, ask.parent.value, conversation) then None
      else Some(Turn(Action, ask.intent, Some(Resolved(rows.messages[ask.parent.value]))))
    case Followup => Some(Turn(Followup, ask.intent, FollowupQuery(rows, latest)))
    case QuestionTurn =>
      if c.detect(ask.question).Some?
      then Some(Turn(Followup, c.detect(ask.question), FollowupQuery(rows, latest)))
      else Some(Turn(QuestionTurn, ask.intent, None))
  }

  function BTrim(s: string): string {
    if s != "" && s[0] == ' ' then BTrim(s[1..])
    else if s != "" && s[|s| - 1] == ' ' then BTrim(s[..|s| - 1])
    else s
  }

  /** The CHECK constraint on questions. */
  predicate Storable(question: string) { 1 <= |BTrim(question)| <= 4000 }

  /** `accept`: `known` is the row found by key, `latest` the latest completed turn, both after the
      expiry that the same transaction performs first. */
  function AcceptTx(c: Config, rows: Rows, conversation: Id, ask: Ask, id: Id,
                    known: Option<Id>, latest: Option<Id>): (Rows, AcceptResult)
    requires known.Some? ==> HasKey(ExpireTx(rows, Some(conversation)), known.value, conversation, ask.key)
  {
    if conversation !in rows.conversations then (rows, NotFound)
    else
      var expired := ExpireTx(rows, Some(conversation));
      if known.Some? then
        if expired.messages[known.value].question != ask.question then (rows, KeyReused)
        else (expired, Accepted(known.value, false))
      else if exists m | m in expired.messages :: IsPending(expired, m, conversation)
      then (rows, Busy)
      else
        var turn := Classify(c, expired, conversation, ask, latest);
        if turn.None? then (rows, InvalidParent)
        else if !Storable(ask.question) || turn.value.kind.Action? != ask.parent.Some?
        then (rows, Unstorable)
        else (Insert(c, expired, conversation, ask, id, turn.value), Accepted(id, true))
  }

  function Insert(c: Config, rows: Rows, conversation: Id, ask: Ask, id: Id, turn: Turn): Rows
    requires conversation in rows.conversations
  {
    var conv := rows.conversations[conversation];
    var corpus := if conv.course in rows.active then rows.active[conv.course] else None;
    var message := Message(conversation, conv.course, corpus, conv.nextSequence, ask.key,
                           ask.question, turn.kind, turn.intent, ask.parent, turn.query,
                           rows.now + c.timeout, Pending, None, None, None, None, None, None, None,
                           None, None);
    rows.(messages := rows.messages[id := message],
          conversations := rows.conversations[conversation :=
            conv.(nextSequence := conv.nextSequence + 1)])
  }

  // ----- the execution of one turn -----

  predicate NeedsAntecedent(message: Message) {
    message.kind.Followup? && message.retrievalQuery.None?
  }

  /** `_pending`: still pending and before its deadline. */
  predicate Live(rows: Rows, m: Id) {
    m in rows.messages && rows.messages[m].state.Pending? && rows.messages[m].deadline > rows.now
  }

  predicate EvidenceChecks(rows: Rows, message: Message, evidence: seq<Evidence>) {
    |evidence| <= 5 &&
    (forall x, y | 0 <= x < y < |evidence| :: evidence[x].chunk != evidence[y].chunk) &&
    forall e | e in evidence ::
      e.course == message.course && Some(e.corpus) == message.corpus &&
      e.chunk in rows.chunks && rows.chunks[e.chunk] == e
  }

  function EvidenceMap(m: Id, evidence: seq<Evidence>): map<EvidenceKey, Evidence> {
    if evidence == [] then map[]
    else EvidenceMap(m, evidence[..|evidence| - 1])[
           EvidenceKey(m, evidence[|evidence| - 1].chunk) := evidence[|evidence| - 1]]
  }

  /** `save_evidence`; the result is the failure code, if any. A row that is already there breaks the
      primary key. */
  function SaveEvidenceTx(rows: Rows, m: Id, evidence: seq<Evidence>): (Rows, Option<string>) {
    if !Live(rows, m) then (rows, Some(INTERRUPTED))
    else if !EvidenceChecks(rows, rows.messages[m], evidence) then (rows, Some(SCOPE_INVALID))
    else if exists e | e in evidence :: EvidenceKey(m, e.chunk) in rows.evidence
    then (rows, Some(PERSISTENCE))
    else (rows.(evidence := rows.evidence + EvidenceMap(m, evidence)), None)
  }

  /** The columns that a completed turn takes from its draft. */
  function AsCompleted(rows: Rows, message: Message, draft: Draft): Message {
    var done := message.(
      state := Completed, answer := Some(draft.answer), mode := Some(draft.mode),
      grounded := Some(draft.grounded), completedAt := Some(rows.now));
    if draft.intervention.None? then done
    else
      var i := draft.intervention.value;
      done.(intervention := Some(i), contract := Some(i.version), situation := Some(i.situation),
            helpLevel := Some(HelpLevel(i.blocks)))
  }

  /** `complete`: foreign and primary keys admit only distinct citations of saved evidence. */
  function CompleteTx(rows: Rows, m: Id, draft: Draft): (Rows, Option<string>) {
    if !Live(rows, m) then (rows, Some(INTERRUPTED))
    else if !Distinct(Chunks(draft.citations)) ||
            exists c | c in draft.citations :: EvidenceKey(m, c.chunk) !in rows.evidence
    then (rows, Some(PERSISTENCE))
    else
      (rows.(messages := rows.messages[m := AsCompleted(rows, rows.messages[m], draft)],
             citations := rows.citations[m := draft.citations]), None)
  }

  function FailTx(rows: Rows, m: Id, code: string): Rows {
    if m in rows.messages && rows.messages[m].state.Pending?
    then rows.(messages := rows.messages[m := AsFailed(rows, rows.messages[m], code)])
    else rows
  }
}
