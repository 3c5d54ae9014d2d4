/** The database rows of durable ingestion and the transactions over them.
    Every function here is one committed transaction: it maps the rows before to the rows after.
    A random identifier (`uuid4`) is a parameter; the transition system supplies unused ones.
    Times are microseconds, the resolution of the database clock. */
module IngestionRows {
  import opened Options

  type Id = nat
  type Time = nat

  const SECOND: nat := 1_000_000
  const PUBLISH_LEASE: Time := 30 * SECOND
  const RETRY_CAP: Time := 60 * SECOND
  const EXHAUSTED := "INGESTION_ATTEMPTS_EXHAUSTED"
  const PROCESSING_FAILED := "DOCUMENT_PROCESSING_FAILED"

  datatype Config = Config(lease: Time, maxAttempts: nat, retryBase: Time, reconcile: Time) {
    predicate Valid() {
      SECOND <= lease && 1 <= maxAttempts && 0 < retryBase && SECOND <= reconcile
    }
  }

  datatype JobState = Pending | Running | Succeeded | Failed
  datatype VersionState =
    AwaitingUpload | Queued | Processing | Indexed | Rejected | OcrRequired | VersionFailed
  type FailureState = v: VersionState | v.Rejected? || v.OcrRequired? || v.VersionFailed?
    witness Rejected
  datatype CorpusState = Building | Ready

  datatype Chunk = Chunk(page: nat, ordinal: nat, content: string)

  /** A vector may hold values that are not finite; one that is stored does not. */
  datatype Number = Finite(real) | NonFinite
  type Vector = seq<Number>

  datatype Course = Course(active: Option<Id>, version: nat)

  datatype Version = Version(
    course: Id, pipeline: string, uploadKey: string, uploadHash: string,
    expectedSize: nat, expectedSha: string,
    state: VersionState, confirmKey: Option<string>, storageVersion: Option<string>,
    objectSize: Option<nat>, objectSha: Option<string>,
    pageCount: Option<nat>, chunkCount: Option<nat>, failureCode: Option<string>)

  datatype Job = Job(
    course: Id, version: Id, pipeline: string, correlation: string,
    state: JobState, attempt: nat, fence: nat,
    lease: Option<Time>, nextAttemptAt: Time,
    failureCode: Option<string>, completedAt: Option<Time>)

  /** Outbox events are keyed by their unique constraint (job, kind); `id` is the primary key. */
  datatype Kind = Ingestion | Dead
  datatype EventKey = EventKey(job: Id, kind: Kind)
  datatype Event = Event(
    id: Id, course: Id, createdAt: Time, availableAt: Time,
    publishedAt: Option<Time>, token: Option<Id>, publishLease: Option<Time>)

  datatype Corpus = Corpus(
    course: Id, version: Id, pipeline: string, state: CorpusState, pages: nat, chunks: seq<Chunk>,
    vectors: Option<seq<Vector>>)

  datatype Rows = Rows(
    now: Time,
    courses: map<Id, Course>,
    versions: map<Id, Version>,
    jobs: map<Id, Job>,
    events: map<EventKey, Event>,
    corpora: map<Id, Corpus>)

  datatype Envelope = Envelope(
    event: Id, job: Id, course: Id, version: Id,
    pipeline: string, correlation: string, createdAt: Time)

  function EnvelopeFor(event: Event, id: Id, job: Job): Envelope {
    Envelope(event.id, id, job.course, job.version, job.pipeline, job.correlation, event.createdAt)
  }

  // ----- documents.py: the entry points -----

  datatype UploadResult = UploadCreated(version: Id) | UploadKnown(version: Id)
                        | UploadKeyReused | UploadNotReady

  predicate HasUpload(rows: Rows, v: Id, course: Id, key: string) {
    v in rows.versions && rows.versions[v].course == course && rows.versions[v].uploadKey == key
  }

  /** `known` is the row, if any, that the lookup by (course, upload key) finds. */
  function CreateUploadTx(rows: Rows, id: Id, known: Option<Id>, course: Id, key: string,
                          hash: string, size: nat, sha: string, pipeline: string)
    : (Rows, UploadResult)
    requires known.Some? ==> HasUpload(rows, known.value, course, key)
  {
    if known.Some? then
      var existing := rows.versions[known.value];
      if existing.uploadHash != hash then (rows, UploadKeyReused)
      else if !existing.state.AwaitingUpload? then (rows, UploadNotReady)
      else (rows, UploadKnown(known.value))
    else
      var version := Version(course, pipeline, key, hash, size, sha, AwaitingUpload, None, None,
                             None, None, None, None, None);
      (rows.(versions := rows.versions[id := version]), UploadCreated(id))
  }

  datatype ConfirmResult = JobCreated(job: Id) | AlreadyConfirmed | ConfirmKeyReused
                         | ConfirmNotReady | VersionMissing

  function Dispatch(rows: Rows, job: Id, event: Id): Rows
    requires job in rows.jobs
  {
    var key := EventKey(job, Ingestion);
    if key in rows.events then rows
    else rows.(events := rows.events[key :=
      Event(event, rows.jobs[job].course, rows.now, rows.now, None, None, None)])
  }

  /** The locked half of `confirm_upload`; `size` and `storageVersion` come from the inspected
      object. The two identifiers are the new job's and its outbox event's. */
  function ConfirmTx(rows: Rows, v: Id, key: string, size: nat, storageVersion: string,
                     correlation: string, job: Id, event: Id): (Rows, ConfirmResult)
  {
    if v !in rows.versions then (rows, VersionMissing)
    else
      var version := rows.versions[v];
      if version.confirmKey.Some? then
        (rows, if version.confirmKey == Some(key) then AlreadyConfirmed else ConfirmKeyReused)
      else if !version.state.AwaitingUpload? then (rows, ConfirmNotReady)
      else
        var confirmed := version.(confirmKey := Some(key), objectSize := Some(size),
                                  storageVersion := Some(storageVersion), state := Queued);
        var row := Job(version.course, v, version.pipeline, correlation, Pending, 0, 0,
                       None, rows.now, None, None);
        var inserted := rows.(versions := rows.versions[v := confirmed],
                              jobs := rows.jobs[job := row]);
        (Dispatch(inserted, job, event), JobCreated(job))
  }

  datatype ActivateResult = Activated(version: nat) | CorpusMissing | CorpusNotReady | Conflict

  function ActivateTx(rows: Rows, course: Id, corpus: Id, expected: nat): (Rows, ActivateResult) {
    if corpus !in rows.corpora || rows.corpora[corpus].course != course then (rows, CorpusMissing)
    else if !rows.corpora[corpus].state.Ready? then (rows, CorpusNotReady)
    else if course !in rows.courses || rows.courses[course].version != expected then (rows, Conflict)
    else (rows.(courses := rows.courses[course := Course(Some(corpus), expected + 1)]),
          Activated(expected + 1))
  }

  // ----- jobs.py: the outbox -----

  function ScheduleRetry(rows: Rows, job: Id, at: Time): Rows {
    var key := EventKey(job, Ingestion);
    if key !in rows.events then rows
    else rows.(events := rows.events[key := rows.events[key].(
      availableAt := at, publishedAt := None, token := None, publishLease := None)])
  }

  function RecordDeadLetter(rows: Rows, job: Id, event: Id): Rows
    requires job in rows.jobs
  {
    var key := EventKey(job, Dead);
    if key in rows.events then rows
    else rows.(events := rows.events[key :=
      Event(event, rows.jobs[job].course, rows.now, rows.now, None, None, None)])
  }

  predicate Due(rows: Rows, k: EventKey) {
    k in rows.events && k.job in rows.jobs &&
    var e := rows.events[k];
    e.publishedAt.None? && e.availableAt <= rows.now &&
    (e.publishLease.None? || e.publishLease.value <= rows.now)
  }

  /** ORDER BY available_at, id. */
  predicate NotAfter(a: Event, b: Event) {
    a.availableAt < b.availableAt || (a.availableAt == b.availableAt && a.id <= b.id)
  }

  /** The row that the relay's LIMIT 1 query returns. */
  ghost predicate IsHead(rows: Rows, k: EventKey) {
    Due(rows, k) && forall o :: Due(rows, o) ==> NotAfter(rows.events[k], rows.events[o])
  }

  ghost function DueSet(rows: Rows): set<EventKey> { set k | k in rows.events && Due(rows, k) }

  lemma {:induction false} LeastOf(rows: Rows, ks: set<EventKey>) returns (h: EventKey)
    requires ks != {} && forall k :: k in ks ==> k in rows.events
    ensures h in ks && forall k :: k in ks ==> NotAfter(rows.events[h], rows.events[k])
    decreases |ks|
  {
    h :| h in ks;
    if ks != {h} {
      var rest := ks - {h};
      assert ks == rest + {h};
      var g := LeastOf(rows, rest);
      if !NotAfter(rows.events[h], rows.events[g]) { h := g; }
    }
  }

  /** Whenever something is due, the query returns a row. */
  lemma HeadExists(rows: Rows, d: EventKey)
    requires Due(rows, d)
    ensures exists k :: k in DueSet(rows) && IsHead(rows, k)
  {
    assert d in DueSet(rows);
    var h := LeastOf(rows, DueSet(rows));
    forall o | Due(rows, o) ensures NotAfter(rows.events[h], rows.events[o]) {
      assert o in DueSet(rows);
    }
  }

  function SelectTx(rows: Rows, k: EventKey, token: Id): Rows
    requires k in rows.events
  {
    rows.(events := rows.events[k := rows.events[k].(
      token := Some(token), publishLease := Some(rows.now + PUBLISH_LEASE))])
  }

  function MarkPublished(rows: Rows, event: Id, token: Id): Rows {
    rows.(events := map k | k in rows.events ::
      var e := rows.events[k];
      if e.id == event && e.token == Some(token)
      then e.(publishedAt := Some(rows.now), token := None, publishLease := None) else e)
  }

  predicate JobDue(rows: Rows, j: Id) {
    j in rows.jobs &&
    var job := rows.jobs[j];
    (job.state.Pending? && job.nextAttemptAt <= rows.now) ||
    (job.state.Running? && job.lease.Some? && job.lease.value <= rows.now)
  }

  predicate Stale(rows: Rows, k: EventKey, stale: Time) {
    k in rows.events && k.kind.Ingestion? && JobDue(rows, k.job) &&
    rows.events[k].publishedAt.Some? && rows.events[k].publishedAt.value + stale <= rows.now
  }

  function ReconcileTx(rows: Rows, stale: Time): Rows {
    rows.(events := map k | k in rows.events ::
      if Stale(rows, k, stale)
      then rows.events[k].(publishedAt := None, availableAt := rows.now,
                           token := None, publishLease := None)
      else rows.events[k])
  }

  // ----- ingestion.py: the worker -----

  datatype Claim = Claim(
    job: Id, course: Id, version: Id, storageVersion: string,
    expectedSize: nat, expectedSha: string, pipeline: string, fence: nat)

  datatype ClaimResult = Granted(claim: Claim) | Refused | ScopeMismatch
                       | NotEnterable   // "could not enter PROCESSING", "no storage version"

  /** The envelope is the one that the authoritative rows would produce. */
  predicate Authentic(rows: Rows, env: Envelope) {
    env.job in rows.jobs && EventKey(env.job, Ingestion) in rows.events &&
    EnvelopeFor(rows.events[EventKey(env.job, Ingestion)], env.job, rows.jobs[env.job]) == env
  }

  predicate Busy(rows: Rows, job: Job) {
    (job.state.Pending? && job.nextAttemptAt > rows.now) ||
    (job.state.Running? && job.lease.Some? && job.lease.value > rows.now)
  }

  predicate OwnVersion(rows: Rows, v: Id, course: Id) {
    v in rows.versions && rows.versions[v].course == course
  }

  function ClaimTx(c: Config, rows: Rows, env: Envelope, dead: Id): (Rows, ClaimResult) {
    if !Authentic(rows, env) then (rows, ScopeMismatch)
    else
      var job := rows.jobs[env.job];
      if job.state.Succeeded? || job.state.Failed? || Busy(rows, job) then (rows, Refused)
      else if job.attempt >= c.maxAttempts then (Exhaust(rows, env.job, dead), Refused)
      else StartAttempt(c, rows, env.job)
  }

  function Exhaust(rows: Rows, j: Id, dead: Id): Rows
    requires j in rows.jobs
  {
    var job := rows.jobs[j].(state := Failed, failureCode := Some(EXHAUSTED),
                             completedAt := Some(rows.now), lease := None,
                             fence := rows.jobs[j].fence + 1);
    var versions :=
      if OwnVersion(rows, job.version, job.course)
      then rows.versions[job.version := rows.versions[job.version].(
             state := VersionFailed, failureCode := Some(EXHAUSTED))]
      else rows.versions;
    RecordDeadLetter(rows.(jobs := rows.jobs[j := job], versions := versions), j, dead)
  }

  function StartAttempt(c: Config, rows: Rows, j: Id): (Rows, ClaimResult)
    requires j in rows.jobs
  {
    var job := rows.jobs[j];
    if !OwnVersion(rows, job.version, job.course) then (rows, NotEnterable)
    else
      var version := rows.versions[job.version];
      if !(version.state.Queued? || version.state.Processing?) || version.storageVersion.None?
      then (rows, NotEnterable)
      else
        var started := job.(state := Running, attempt := job.attempt + 1, fence := job.fence + 1,
                            lease := Some(rows.now + c.lease));
        (rows.(jobs := rows.jobs[j := started],
               versions := rows.versions[job.version := version.(state := Processing)]),
         Granted(Claim(j, job.course, job.version, version.storageVersion.value,
                       version.expectedSize, version.expectedSha, job.pipeline, started.fence)))
  }

  /** The row the worker must still own: running, same fence, lease not expired. */
  predicate Holds(rows: Rows, claim: Claim) {
    claim.job in rows.jobs &&
    var job := rows.jobs[claim.job];
    job.state.Running? && job.fence == claim.fence && job.lease.Some? && job.lease.value > rows.now
  }

  predicate ProcessingVersion(rows: Rows, claim: Claim) {
    OwnVersion(rows, claim.version, claim.course) && rows.versions[claim.version].state.Processing?
  }

  datatype Build = Build(
    sha: string, size: nat, pages: nat, chunks: seq<Chunk>, vectors: Option<seq<Vector>>)

  datatype SuccessResult = Committed | StaleFence
                         | CountMismatch  // "embedding count mismatch"
                         | NotIndexable   // "could not enter INDEXED"

  /** One vector for each chunk, when there is an embedder at all. */
  predicate VectorsMatch(chunks: seq<Chunk>, vectors: Option<seq<Vector>>) {
    vectors.Some? ==> |vectors.value| == |chunks|
  }

  function PersistSuccessTx(rows: Rows, claim: Claim, build: Build, corpus: Id)
    : (Rows, SuccessResult)
  {
    if !Holds(rows, claim) then (rows, StaleFence)
    else if !VectorsMatch(build.chunks, build.vectors) then (rows, CountMismatch)
    else if !ProcessingVersion(rows, claim) then (rows, NotIndexable)
    else
      var version := rows.versions[claim.version].(
        state := Indexed, objectSize := Some(build.size), objectSha := Some(build.sha),
        pageCount := Some(build.pages), chunkCount := Some(|build.chunks|), failureCode := None);
      var job := rows.jobs[claim.job].(state := Succeeded, failureCode := None,
                                       completedAt := Some(rows.now), lease := None);
      var ready := Corpus(claim.course, claim.version, claim.pipeline, Ready,
                          build.pages, build.chunks, build.vectors);
      (rows.(versions := rows.versions[claim.version := version],
             jobs := rows.jobs[claim.job := job],
             corpora := rows.corpora[corpus := ready]),
       Committed)
  }

  function Pow2(n: nat): nat { if n == 0 then 1 else 2 * Pow2(n - 1) }

  function MaxDelay(c: Config, attempt: nat): Time
    requires attempt >= 1
  {
    var backoff := c.retryBase * Pow2(attempt - 1);
    if backoff < RETRY_CAP then backoff else RETRY_CAP
  }

  predicate Retries(c: Config, job: Job, transient: bool) {
    transient && job.attempt < c.maxAttempts
  }

  function PersistFailureTx(c: Config, rows: Rows, claim: Claim, code: string,
                            state: FailureState, transient: bool, delay: Time, dead: Id)
    : (Rows, bool)
  {
    if !Holds(rows, claim) then (rows, false)
    else
      var job := rows.jobs[claim.job];
      var retry := Retries(c, job, transient);
      var failed := job.(state := if retry then Pending else Failed,
                         failureCode := Some(code), lease := None,
                         nextAttemptAt := if retry then rows.now + delay else job.nextAttemptAt,
                         completedAt := if retry then job.completedAt else Some(rows.now));
      var updated := rows.(jobs := rows.jobs[claim.job := failed]);
      var outbox := if retry then ScheduleRetry(updated, claim.job, rows.now + delay)
                    else RecordDeadLetter(updated, claim.job, dead);
      (if ProcessingVersion(rows, claim)
       then outbox.(versions := rows.versions[claim.version := rows.versions[claim.version].(
              state := if retry then Queued else state, failureCode := Some(code))])
       else outbox,
       true)
  }

  /** `_acknowledgeable`: pending work has its own scheduled event, finished work needs none. */
  predicate Acknowledgeable(rows: Rows, job: Id) {
    job in rows.jobs && !rows.jobs[job].state.Running?
  }

  // ----- IngestionWorker.process: what one attempt computes from the outside world's answers -----

  datatype StorageAnswer = Content(size: nat, sha: string) | ObjectMissing | ObjectTooLarge
                         | StorageDown
  datatype ParseAnswer = Parsed(pages: nat, chunks: seq<Chunk>)
                       | Unreadable(code: string, state: FailureState) | ParserCrash
  datatype EmbedAnswer = NoEmbedder | Embedded(vectors: seq<Vector>) | EmbedderDown | InvalidVectors
                       | EmbedderCrash
  datatype World = World(storage: StorageAnswer, parse: ParseAnswer, embed: EmbedAnswer)

  /** The stored object is the one that was confirmed. */
  predicate ObjectGood(claim: Claim, world: World) {
    world.storage.Content? && world.storage.size == claim.expectedSize &&
    world.storage.sha == claim.expectedSha
  }

  predicate TextFound(world: World) { world.parse.Parsed? && world.parse.chunks != [] }

  /** There is no embedder, or it gave one vector for each chunk. */
  predicate Embeds(world: World) {
    world.embed.NoEmbedder? ||
    (world.embed.Embedded? && world.parse.Parsed? && |world.embed.vectors| == |world.parse.chunks|)
  }

  predicate Succeeds(claim: Claim, world: World) {
    ObjectGood(claim, world) && TextFound(world) && Embeds(world)
  }

  /** The failures that another attempt may get over: of the object store, and of the embedder once
      everything before it is good. */
  predicate Passing(claim: Claim, world: World) {
    world.storage.StorageDown? ||
    (ObjectGood(claim, world) && TextFound(world) && world.embed.EmbedderDown?)
  }

  datatype Work = Built(build: Build) | Broken(code: string, state: FailureState, transient: bool)

  function Examine(claim: Claim, world: World): (w: Work)
    ensures w.Built? ==> w.build.size == claim.expectedSize && w.build.sha == claim.expectedSha
                         && w.build.chunks != [] && VectorsMatch(w.build.chunks, w.build.vectors)
  {
    match world.storage
    case ObjectTooLarge => Broken("DOCUMENT_TOO_LARGE", Rejected, false)
    case ObjectMissing => Broken("UPLOAD_NOT_FOUND", VersionFailed, false)
    case StorageDown => Broken("OBJECT_STORAGE_UNAVAILABLE", VersionFailed, true)
    case Content(size, sha) =>
      if size != claim.expectedSize then Broken("DOCUMENT_SIZE_MISMATCH", Rejected, false)
      else if sha != claim.expectedSha then Broken("DOCUMENT_CHECKSUM_MISMATCH", Rejected, false)
      else match world.parse
        case Unreadable(code, state) => Broken(code, state, false)
        case ParserCrash => Broken(PROCESSING_FAILED, VersionFailed, false)
        case Parsed(pages, chunks) =>
          if chunks == [] then Broken("DOCUMENT_OCR_REQUIRED", OcrRequired, false)
          else match world.embed
            case EmbedderDown => Broken("EMBEDDING_UNAVAILABLE", VersionFailed, true)
            case InvalidVectors => Broken("EMBEDDING_INVALID", VersionFailed, false)
            case EmbedderCrash => Broken(PROCESSING_FAILED, VersionFailed, false)
            case NoEmbedder => Built(Build(sha, size, pages, chunks, None))
            case Embedded(vectors) =>
              if |vectors| != |chunks| then Broken("EMBEDDING_INVALID", VersionFailed, false)
              else Built(Build(sha, size, pages, chunks, Some(vectors)))
  }

  /** What an attempt makes of the world's answers: exactly when it succeeds, with which content; and
      otherwise which failure it is. */
  lemma ExamineMeans(claim: Claim, world: World)
    ensures var w := Examine(claim, world);
      && (w.Built? <==> Succeeds(claim, world))
      && (w.Built? ==>
            w.build.sha == claim.expectedSha && w.build.size == claim.expectedSize &&
            w.build.pages == world.parse.pages && w.build.chunks == world.parse.chunks &&
            w.build.vectors ==
              if world.embed.NoEmbedder? then None else Some(world.embed.vectors))
      && (w.Broken? ==> (w.transient <==> Passing(claim, world)))
  {
  }

  lemma ExamineCauses(claim: Claim, world: World)
    requires !Succeeds(claim, world)
    ensures var w := Examine(claim, world);
      if world.storage.ObjectTooLarge? then w.code == "DOCUMENT_TOO_LARGE" && w.state.Rejected?
      else if world.storage.ObjectMissing? then w.code == "UPLOAD_NOT_FOUND" && w.state.VersionFailed?
      else if world.storage.StorageDown? then
        w.code == "OBJECT_STORAGE_UNAVAILABLE" && w.state.VersionFailed?
      else if !ObjectGood(claim, world) then
        w.state.Rejected? &&
        w.code == (if world.storage.size != claim.expectedSize then "DOCUMENT_SIZE_MISMATCH"
                   else "DOCUMENT_CHECKSUM_MISMATCH")
      else if world.parse.Unreadable? then
        w.code == world.parse.code && w.state == world.parse.state
      else if world.parse.ParserCrash? then w.code == PROCESSING_FAILED && w.state.VersionFailed?
      else if !TextFound(world) then w.code == "DOCUMENT_OCR_REQUIRED" && w.state.OcrRequired?
      else
        w.state.VersionFailed? &&
        w.code == (match world.embed
                   case EmbedderDown => "EMBEDDING_UNAVAILABLE"
                   case EmbedderCrash => PROCESSING_FAILED
                   case _ => "EMBEDDING_INVALID")
  {
  }

  /** The longest wait before a retry doubles with each attempt, up to a minute. */
  lemma MaxDelayMeans(c: Config, attempt: nat)
    requires attempt >= 1
    ensures MaxDelay(c, 1) == if c.retryBase < RETRY_CAP then c.retryBase else RETRY_CAP
    ensures var twice := 2 * MaxDelay(c, attempt);
      MaxDelay(c, attempt + 1) == if twice < RETRY_CAP then twice else RETRY_CAP
  {
    assert Pow2(0) == 1 && Pow2(attempt) == 2 * Pow2(attempt - 1);
    var b := c.retryBase * Pow2(attempt - 1);
    assert c.retryBase * Pow2(attempt) == 2 * b;
  }
}
