/** One step of the conversation system: the rows, the executions in flight and the identifiers. */
module ConversationSteps {
  import opened Options
  import opened TutorContract
  import opened ResponseValidator
  import opened ConversationRows
  import opened ConversationSystem
  import opened ConversationInvariant
  import opened ConversationPreservation

  // ----- the rows -----

  lemma PublishSafe(c: Config, s: State, l: Label)
    requires Inv(s) && Enabled(c, s, l) && l.PublishCorpus?
    ensures RowsInv(Next(c, s, l).rows) && Grows(s.rows, Next(c, s, l).rows)
  {
    var (r, r') := (s.rows, Next(c, s, l).rows);
    var added := ChunkRows(l.course, s.nextId, l.contents, s.nextId + 1);
    forall k | k in r'.chunks && k !in r.chunks ensures ChunkOk(r', k) {
      assert k in added;
    }
    forall k | k in r.chunks ensures r'.chunks[k] == r.chunks[k] {
      assert k !in added;
    }
    SourcesOnly(r, r');
  }

  /** Steps of one execution. */
  predicate ByExecution(l: Label) { l.SaveEvidence? || l.Complete? || l.RecordFailure? }

  lemma ExecutionRows(c: Config, s: State, l: Label)
    requires Inv(s) && Enabled(c, s, l) && ByExecution(l)
    ensures RowsInv(Next(c, s, l).rows) && Grows(s.rows, Next(c, s, l).rows)
  {
    match l
    case SaveEvidence(m) => SaveSafe(s.rows, m, s.tasks[m].evidence);
    case Complete(m) =>
      assert TaskOk(s.rows, m, s.tasks[m]);
      CompleteSafe(s.rows, m, s.tasks[m].draft, s.tasks[m].evidence);
    case RecordFailure(m) => FailSafe(s.rows, m, s.tasks[m].code);
  }

  lemma RequestRows(c: Config, s: State, l: Label)
    requires Inv(s) && Enabled(c, s, l) && !ByExecution(l)
    ensures RowsInv(Next(c, s, l).rows) && Grows(s.rows, Next(c, s, l).rows)
  {
    var (r, r') := (s.rows, Next(c, s, l).rows);
    match l
    case Tick(_) | CreateCourse | Activate(_, _) => SourcesOnly(r, r');
    case PublishCorpus(_, _) => PublishSafe(c, s, l);
    case CreateConversation(course) => CreateConversationSafe(r, s.nextId, course);
    case Accept(x, ask, known, latest, _) =>
      assert forall m :: m in r.citations ==> CitationsOk(r, m);
      AcceptSafe(c, r, x, ask, s.nextId, known, latest);
    case ExpireOne(x) => ExpireSafe(r, Some(x));
    case Reap => ExpireSafe(r, None);
    case _ => GrowsRefl(r);
  }

  lemma StepRows(c: Config, s: State, l: Label)
    requires Inv(s) && Enabled(c, s, l)
    ensures RowsInv(Next(c, s, l).rows) && Grows(s.rows, Next(c, s, l).rows)
  {
    if ByExecution(l) { ExecutionRows(c, s, l); } else { RequestRows(c, s, l); }
  }

  // ----- the executions -----

  lemma TaskStays(r: Rows, r': Rows, m: Id, task: Task)
    requires TaskOk(r, m, task) && Grows(r, r')
    ensures TaskOk(r', m, task)
  {
    assert MessageKept(r, r', m);
  }

  predicate Mentions(l: Label, m: Id) {
    match l
    case BuildRequest(n) => m == n
    case Retrieve(n, _) => m == n
    case SaveEvidence(n) => m == n
    case Generate(n, _) => m == n
    case Validate(n) => m == n
    case Complete(n) => m == n
    case Abort(n, _) => m == n
    case RecordFailure(n) => m == n
    case _ => false
  }

  lemma TaskUntouched(c: Config, s: State, l: Label, m: Id)
    requires Enabled(c, s, l) && !Mentions(l, m) && m in Next(c, s, l).tasks
    requires m != s.nextId
    ensures m in s.tasks && Next(c, s, l).tasks[m] == s.tasks[m]
  {
  }

  /** What the validator hands on is admissible, and only clarifies when there is no antecedent. */
  lemma ValidateTask(c: Config, s: State, m: Id)
    requires Inv(s) && Enabled(c, s, Validate(m))
    ensures TaskOk(s.rows, m, Next(c, s, Validate(m)).tasks[m])
  {
    var task := s.tasks[m];
    assert TaskOk(s.rows, m, task);
    var request := RequestOf(s.rows.messages[m], task.evidence);
    ClarificationAccepted(c.fold, request);
    if Validated(c.fold, task.draft, request).Ok? {
      AcceptedMeans(c.fold, task.draft, request);
    }
  }

  lemma TaskAdvances(c: Config, s: State, l: Label, m: Id)
    requires Inv(s) && Enabled(c, s, l) && Mentions(l, m) && m in Next(c, s, l).tasks
    ensures TaskOk(Next(c, s, l).rows, m, Next(c, s, l).tasks[m])
  {
    assert TaskOk(s.rows, m, s.tasks[m]);
    match l
    case SaveEvidence(_) => SaveSafe(s.rows, m, s.tasks[m].evidence);
    case Validate(_) => ValidateTask(c, s, m);
    case _ =>
  }

  lemma StepTasks(c: Config, s: State, l: Label)
    requires Inv(s) && Enabled(c, s, l)
    ensures TasksOk(Next(c, s, l))
  {
    var s' := Next(c, s, l);
    StepRows(c, s, l);
    forall m | m in s'.tasks ensures TaskOk(s'.rows, m, s'.tasks[m]) {
      if Mentions(l, m) {
        TaskAdvances(c, s, l, m);
      } else if m == s.nextId {
        assert forall o :: o in s.tasks ==> TaskOk(s.rows, o, s.tasks[o]);
      } else {
        TaskUntouched(c, s, l, m);
        assert TaskOk(s.rows, m, s.tasks[m]);
        TaskStays(s.rows, s'.rows, m, s.tasks[m]);
      }
    }
  }

  // ----- the identifiers -----

  lemma ExpireKeys(r: Rows, x: Option<Id>)
    ensures ExpireTx(r, x).messages.Keys == r.messages.Keys
  {
  }

  lemma AcceptKeys(c: Config, r: Rows, x: Id, ask: Ask, id: Id, known: Option<Id>,
                   latest: Option<Id>)
    requires known.Some? ==> HasKey(ExpireTx(r, Some(x)), known.value, x, ask.key)
    ensures var (r', result) := AcceptTx(c, r, x, ask, id, known, latest);
      && r'.messages.Keys == r.messages.Keys + (if result.Accepted? && result.created then {id} else {})
      && r'.conversations.Keys == r.conversations.Keys
  {
    ExpireKeys(r, Some(x));
  }

  lemma StepMessageIds(c: Config, s: State, l: Label)
    requires Inv(s) && Enabled(c, s, l)
    ensures s.nextId <= Next(c, s, l).nextId
    ensures forall m :: m in Next(c, s, l).rows.messages ==> m < Next(c, s, l).nextId
  {
    match l
    case Accept(x, ask, known, latest, _) =>
      AcceptKeys(c, s.rows, x, ask, s.nextId, known, latest);
    case ExpireOne(x) => ExpireKeys(s.rows, Some(x));
    case Reap => ExpireKeys(s.rows, None);
    case _ =>
  }

  lemma StepConversationIds(c: Config, s: State, l: Label)
    requires Inv(s) && Enabled(c, s, l)
    ensures forall x :: x in Next(c, s, l).rows.conversations ==> x < Next(c, s, l).nextId
  {
    match l
    case Accept(x, ask, known, latest, _) =>
      AcceptKeys(c, s.rows, x, ask, s.nextId, known, latest);
    case _ =>
  }

  lemma StepSourceIds(c: Config, s: State, l: Label)
    requires Inv(s) && Enabled(c, s, l)
    ensures forall k :: k in Next(c, s, l).rows.chunks ==> k < Next(c, s, l).nextId
    ensures forall k :: k in Next(c, s, l).rows.corpora ==> k < Next(c, s, l).nextId
  {
  }

  lemma StepCourseIds(c: Config, s: State, l: Label)
    requires Inv(s) && Enabled(c, s, l)
    ensures forall x :: x in Next(c, s, l).rows.active ==> x < Next(c, s, l).nextId
  {
  }

  lemma StepIds(c: Config, s: State, l: Label)
    requires Inv(s) && Enabled(c, s, l)
    ensures IdsUsed(Next(c, s, l))
  {
    StepMessageIds(c, s, l);
    StepConversationIds(c, s, l);
    StepSourceIds(c, s, l);
    StepCourseIds(c, s, l);
  }

  lemma InitInv(s: State)
    requires Init(s)
    ensures Inv(s)
  {
  }

  lemma StepInv(c: Config, s: State, l: Label)
    requires Inv(s) && Enabled(c, s, l)
    ensures Inv(Next(c, s, l)) && Grows(s.rows, Next(c, s, l).rows)
  {
    StepRows(c, s, l);
    StepTasks(c, s, l);
    StepIds(c, s, l);
  }
}
