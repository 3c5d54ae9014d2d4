/** Durable ingestion as a labelled transition system. One label is one atomic step of one party:
    a committed transaction, one stream command, a crash, or the passing of time. All choice lies
    in the labels; `Next` is a function. */
module IngestionSystem {
  import opened Options
  import opened IngestionRows

  /** A relay inside `publish_one`, named by its publish token. */
  datatype Relay = Relay(key: EventKey, envelope: Envelope, added: bool)

  /** A consumer inside `consume_one`. */
  datatype Worker =
    | Received(msg: Id, envelope: Envelope)      // before `_claim`
    | Working(msg: Id, claim: Claim)             // owns a lease, computing
    | Failing(msg: Id, claim: Claim)             // `_persist_success` raised: record the failure
    | Deciding(msg: Id, job: Id)                 // before `_acknowledgeable`
    | Acking(msg: Id)                            // before XACK and XDEL

  datatype State = State(
    rows: Rows,
    relays: map<Id, Relay>,
    stream: map<Id, Envelope>,
    workers: map<Id, Worker>,
    nextId: Id)

  datatype Label =
    | Tick(elapsed: Time)
    | CreateCourse
    | CreateUpload(known: Option<Id>, course: Id, uploadKey: string, hash: string,
                   size: nat, sha: string, pipeline: string)
    | Confirm(version: Id, key: string, objectSize: nat, storageVersion: string,
              correlation: string)
    | Activate(activated: Id, corpus: Id, expected: nat)
    | Select(head: EventKey)
    | Xadd(relay: Id)
    | MarkDone(relay: Id)
    | RelayCrash(relay: Id)
    | Reconcile
    | Receive(msg: Id)
    | TryClaim(worker: Id)
    | Persist(worker: Id, world: World, delay: Time)
    | RecordFailure(worker: Id)
    | Decide(worker: Id)
    | Ack(worker: Id)
    | WorkerCrash(worker: Id)
    | Inject(envelope: Envelope)                 // any entry at all: duplicates and forgeries
    | Lose(msgs: set<Id>)                        // the stream, or part of it, disappears

  ghost predicate Init(s: State) {
    s.rows.courses == map[] && s.rows.versions == map[] && s.rows.jobs == map[] &&
    s.rows.events == map[] && s.rows.corpora == map[] &&
    s.relays == map[] && s.stream == map[] && s.workers == map[]
  }

  /** uniform(delay / 2, delay) */
  predicate DelayInRange(c: Config, job: Job, delay: Time) {
    job.attempt >= 1 && MaxDelay(c, job.attempt) <= 2 * delay && delay <= MaxDelay(c, job.attempt)
  }

  ghost predicate Enabled(c: Config, s: State, l: Label) {
    match l
    case Tick(_) | CreateCourse | Activate(_, _, _) | Reconcile | Inject(_) | Lose(_) => true
    case Confirm(v, _, size, _, _) =>            // the stored object passed validation
      v in s.rows.versions ==> size == s.rows.versions[v].expectedSize
    case CreateUpload(known, course, key, _, _, _, _) =>
      course in s.rows.courses &&
      (known.Some? ==> HasUpload(s.rows, known.value, course, key)) &&
      (known.None? ==> forall v :: !HasUpload(s.rows, v, course, key))
    case Select(k) => IsHead(s.rows, k)
    case Xadd(r) => r in s.relays && !s.relays[r].added
    case MarkDone(r) => r in s.relays && s.relays[r].added
    case RelayCrash(r) => r in s.relays
    case Receive(m) => m in s.stream
    case TryClaim(w) => w in s.workers && s.workers[w].Received?
    case Persist(w, _, delay) =>
      w in s.workers && s.workers[w].Working? &&
      (Holds(s.rows, s.workers[w].claim) ==>
         DelayInRange(c, s.rows.jobs[s.workers[w].claim.job], delay))
    case RecordFailure(w) => w in s.workers && s.workers[w].Failing?
    case Decide(w) => w in s.workers && s.workers[w].Deciding?
    case Ack(w) => w in s.workers && s.workers[w].Acking?
    case WorkerCrash(w) => w in s.workers
  }

  /** A step consumes at most two fresh identifiers. */
  function Spend(s: State): State { s.(nextId := s.nextId + 2) }

  function Next(c: Config, s: State, l: Label): State
    requires Enabled(c, s, l)
  {
    var id := s.nextId;
    match l
    case Tick(elapsed) => s.(rows := s.rows.(now := s.rows.now + elapsed))
    case CreateCourse =>
      Spend(s).(rows := s.rows.(courses := s.rows.courses[id := Course(None, 0)]))
    case CreateUpload(known, course, key, hash, size, sha, pipeline) =>
      Spend(s).(rows := CreateUploadTx(s.rows, id, known, course, key, hash, size, sha, pipeline).0)
    case Confirm(v, key, size, storageVersion, correlation) =>
      Spend(s).(rows := ConfirmTx(s.rows, v, key, size, storageVersion, correlation, id, id + 1).0)
    case Activate(course, corpus, expected) =>
      s.(rows := ActivateTx(s.rows, course, corpus, expected).0)
    case Select(k) =>
      Spend(s).(rows := SelectTx(s.rows, k, id),
                relays := s.relays[id := Relay(k,
                  EnvelopeFor(s.rows.events[k], k.job, s.rows.jobs[k.job]), false)])
    case Xadd(r) =>
      var relay := s.relays[r];
      var added := Spend(s).(relays := s.relays[r := relay.(added := true)]);
      if relay.key.kind.Dead? then added   // the bounded dead-letter mirror is another stream
      else added.(stream := s.stream[id := relay.envelope])
    case MarkDone(r) =>
      s.(rows := MarkPublished(s.rows, s.relays[r].envelope.event, r), relays := s.relays - {r})
    case RelayCrash(r) => s.(relays := s.relays - {r})
    case Reconcile => s.(rows := ReconcileTx(s.rows, c.reconcile))
    case Receive(m) => Spend(s).(workers := s.workers[id := Received(m, s.stream[m])])
    case TryClaim(w) =>
      var worker := s.workers[w];
      var (rows, result) := ClaimTx(c, s.rows, worker.envelope, id);
      var after := Spend(s).(rows := rows);
      (match result
       case Granted(claim) => after.(workers := s.workers[w := Working(worker.msg, claim)])
       case Refused => after.(workers := s.workers[w := Deciding(worker.msg, worker.envelope.job)])
       case ScopeMismatch => after.(workers := s.workers[w := Acking(worker.msg)])
       case NotEnterable => after.(workers := s.workers - {w}))
    case Persist(w, world, delay) =>
      var worker := s.workers[w];
      (match Examine(worker.claim, world)
       case Built(build) =>
         var (rows, result) := PersistSuccessTx(s.rows, worker.claim, build, id);
         Spend(s).(rows := rows, workers := s.workers[w :=
           if result.Committed? then Deciding(worker.msg, worker.claim.job)
           else Failing(worker.msg, worker.claim)])
       case Broken(code, state, transient) =>
         Spend(s).(
           rows := PersistFailureTx(c, s.rows, worker.claim, code, state, transient, delay, id).0,
           workers := s.workers[w := Deciding(worker.msg, worker.claim.job)]))
    case RecordFailure(w) =>
      var worker := s.workers[w];
      Spend(s).(
        rows := PersistFailureTx(c, s.rows, worker.claim, PROCESSING_FAILED, VersionFailed,
                                 false, 0, id).0,
        workers := s.workers[w := Deciding(worker.msg, worker.claim.job)])
    case Decide(w) =>
      var worker := s.workers[w];
      if Acknowledgeable(s.rows, worker.job) then s.(workers := s.workers[w := Acking(worker.msg)])
      else s.(workers := s.workers - {w})
    case Ack(w) => s.(stream := s.stream - {s.workers[w].msg}, workers := s.workers - {w})
    case WorkerCrash(w) => s.(workers := s.workers - {w})
    case Inject(envelope) => Spend(s).(stream := s.stream[id := envelope])
    case Lose(msgs) => s.(stream := s.stream - msgs)
  }

  /** A run: states[i] --labels[i]--> states[i+1], from an empty database. */
  ghost predicate IsRun(c: Config, states: seq<State>, labels: seq<Label>) {
    |states| == |labels| + 1 && Init(states[0]) &&
    forall i :: 0 <= i < |labels| ==> StepAt(c, states, labels, i)
  }

  ghost predicate StepAt(c: Config, states: seq<State>, labels: seq<Label>, i: nat)
    requires i < |labels| && |states| == |labels| + 1
  {
    Enabled(c, states[i], labels[i]) && states[i + 1] == Next(c, states[i], labels[i])
  }
}
