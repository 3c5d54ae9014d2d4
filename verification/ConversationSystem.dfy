/** Tutor conversations as a labelled transition system: requests, the execution of each turn step by
    step, the reaper, activation of corpora, crashes and time, in any interleaving. */
module ConversationSystem {
  import opened Options
  import opened TutorContract
  import opened ResponseValidator
  import opened ConversationRows

  /** Where the execution of one turn stands (`_pipeline`). */
  datatype Task =
    | Starting
    | Retrieving
    | Saving(evidence: seq<Evidence>)
    | Generating(evidence: seq<Evidence>)
    | Validating(draft: Draft, evidence: seq<Evidence>)
    | Completing(draft: Draft, evidence: seq<Evidence>)
    | Failing(code: string)

  datatype State = State(rows: Rows, tasks: map<Id, Task>, nextId: Id)

  /** Content of a chunk row to be inserted; identifiers and scope are supplied by the database. */
  datatype Label =
    | Tick(elapsed: Time)
    | CreateCourse
    | PublishCorpus(course: Id, contents: seq<Evidence>)
    | Activate(course: Id, corpus: Id)
    | CreateConversation(course: Id)
    | Accept(conversation: Id, ask: Ask, known: Option<Id>, latest: Option<Id>, started: bool)
    | ExpireOne(conversation: Id)                 // history, read
    | Reap                                        // expire
    | BuildRequest(message: Id)
    | Retrieve(message: Id, found: seq<Evidence>) // any retriever answer at all
    | SaveEvidence(message: Id)
    | Generate(message: Id, output: Draft)        // any model output at all
    | Validate(message: Id)
    | Complete(message: Id)
    | Abort(message: Id, code: string)            // timeout, cancellation, retriever or model error
    | RecordFailure(message: Id)
    | Crash                                       // the process dies with all its executions

  ghost predicate Init(s: State) {
    s.rows.active == map[] && s.rows.corpora == map[] && s.rows.chunks == map[] &&
    s.rows.conversations == map[] && s.rows.messages == map[] && s.rows.evidence == map[] &&
    s.rows.citations == map[] && s.tasks == map[]
  }

  ghost predicate Enabled(c: Config, s: State, l: Label) {
    match l
    case Tick(_) | CreateCourse | ExpireOne(_) | Reap | Crash => true
    case PublishCorpus(course, _) => course in s.rows.active
    case Activate(course, corpus) =>
      course in s.rows.active && corpus in s.rows.corpora && s.rows.corpora[corpus] == course
    case CreateConversation(course) => course in s.rows.active
    case Accept(x, ask, known, latest, _) =>
      var expired := ExpireTx(s.rows, Some(x));
      (known.Some? ==> HasKey(expired, known.value, x, ask.key)) &&
      (known.None? ==> forall m :: !HasKey(expired, m, x, ask.key)) &&
      IsLatest(expired, x, latest)
    case BuildRequest(m) => m in s.tasks && s.tasks[m].Starting? && m in s.rows.messages
    case Retrieve(m, _) => m in s.tasks && s.tasks[m].Retrieving?
    case SaveEvidence(m) => m in s.tasks && s.tasks[m].Saving?
    case Generate(m, _) => m in s.tasks && s.tasks[m].Generating?
    case Validate(m) => m in s.tasks && s.tasks[m].Validating? && m in s.rows.messages
    case Complete(m) => m in s.tasks && s.tasks[m].Completing?
    case Abort(m, _) => m in s.tasks && !s.tasks[m].Failing?
    case RecordFailure(m) => m in s.tasks && s.tasks[m].Failing?
  }

  /** Chunk rows get fresh identifiers from `id` on and the scope of their corpus. */
  function ChunkRows(course: Id, corpus: Id, contents: seq<Evidence>, id: Id): (r: map<Id, Evidence>)
    ensures forall k :: k in r ==>
      id <= k < id + |contents| && r[k] == contents[k - id].(chunk := k, course := course, corpus := corpus)
  {
    var n := |contents|;
    if n == 0 then map[]
    else ChunkRows(course, corpus, contents[..n - 1], id)[
           id + n - 1 := contents[n - 1].(chunk := id + n - 1, course := course, corpus := corpus)]
  }

  /** The request the validator sees; a message without a corpus never gets this far. */
  function RequestOf(message: Message, evidence: seq<Evidence>): Request {
    Request(message.course, if message.corpus.Some? then message.corpus.value else 0, evidence)
  }

  function FailureCode(f: Failure): string {
    match f case MODEL_OUTPUT_INVALID => OUTPUT_INVALID case RETRIEVAL_SCOPE_INVALID => SCOPE_INVALID
  }

  function Next(c: Config, s: State, l: Label): State
    requires Enabled(c, s, l)
  {
    var id := s.nextId;
    match l
    case Tick(elapsed) => s.(rows := s.rows.(now := s.rows.now + elapsed))
    case CreateCourse => s.(rows := s.rows.(active := s.rows.active[id := None]), nextId := id + 1)
    case PublishCorpus(course, contents) =>
      s.(rows := s.rows.(corpora := s.rows.corpora[id := course],
                         chunks := s.rows.chunks + ChunkRows(course, id, contents, id + 1)),
         nextId := id + 1 + |contents|)
    case Activate(course, corpus) =>
      s.(rows := s.rows.(active := s.rows.active[course := Some(corpus)]))
    case CreateConversation(course) =>
      s.(rows := s.rows.(conversations := s.rows.conversations[id := Conversation(course, 1)]),
         nextId := id + 1)
    case Accept(x, ask, known, latest, started) =>
      var (rows, result) := AcceptTx(c, s.rows, x, ask, id, known, latest);
      if result.Accepted? && result.created
      then State(rows, if started then s.tasks[id := Starting] else s.tasks, id + 1)
      else s.(rows := rows)
    case ExpireOne(x) => s.(rows := ExpireTx(s.rows, Some(x)))
    case Reap => s.(rows := ExpireTx(s.rows, None))
    case BuildRequest(m) =>
      var message := s.rows.messages[m];
      s.(tasks := s.tasks[m :=
        if message.corpus.None? then Failing(NOT_READY)
        else if NeedsAntecedent(message) then Validating(Clarification(), [])
        else Retrieving])
    case Retrieve(m, found) => s.(tasks := s.tasks[m := Saving(found)])
    case SaveEvidence(m) =>
      var evidence := s.tasks[m].evidence;
      var (rows, failure) := SaveEvidenceTx(s.rows, m, evidence);
      s.(rows := rows, tasks := s.tasks[m :=
        if failure.Some? then Failing(failure.value)
        else if evidence == [] then Validating(Abstention(), evidence)
        else Generating(evidence)])
    case Generate(m, output) =>
      s.(tasks := s.tasks[m := Validating(output, s.tasks[m].evidence)])
    case Validate(m) =>
      var task := s.tasks[m];
      var verdict := Validated(c.fold, task.draft, RequestOf(s.rows.messages[m], task.evidence));
      s.(tasks := s.tasks[m :=
        if verdict.Ok? then Completing(verdict.value, task.evidence)
        else Failing(FailureCode(verdict.error))])
    case Complete(m) =>
      var (rows, failure) := CompleteTx(s.rows, m, s.tasks[m].draft);
      if failure.Some? then s.(tasks := s.tasks[m := Failing(failure.value)])
      else s.(rows := rows, tasks := s.tasks - {m})
    case Abort(m, code) => s.(tasks := s.tasks[m := Failing(code)])
    case RecordFailure(m) =>
      s.(rows := FailTx(s.rows, m, s.tasks[m].code), tasks := s.tasks - {m})
    case Crash => s.(tasks := map[])
  }

  ghost predicate StepAt(c: Config, states: seq<State>, labels: seq<Label>, i: nat)
    requires i < |labels| && |states| == |labels| + 1
  {
    Enabled(c, states[i], labels[i]) && states[i + 1] == Next(c, states[i], labels[i])
  }

  ghost predicate IsRun(c: Config, states: seq<State>, labels: seq<Label>) {
    |states| == |labels| + 1 && Init(states[0]) &&
    forall i :: 0 <= i < |labels| ==> StepAt(c, states, labels, i)
  }
}
