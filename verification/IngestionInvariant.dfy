/** What holds of the ingestion rows and of everything in flight after every step.
    Each quantified clause is one named predicate per row, and is used one row at a time. */
module IngestionInvariant {
  import opened Options
  import opened IngestionRows
  import opened IngestionSystem

  predicate JobOf(rows: Rows, v: Id, j: Id) { j in rows.jobs && rows.jobs[j].version == v }

  predicate CorpusOf(rows: Rows, v: Id, k: Id) { k in rows.corpora && rows.corpora[k].version == v }

  predicate Terminal(job: Job) { job.state.Succeeded? || job.state.Failed? }

  // ----- one row at a time -----

  /** A job belongs to a version of its course and always has its ingestion event. */
  predicate JobRefs(rows: Rows, j: Id) {
    j in rows.jobs &&
    var job := rows.jobs[j];
    job.version in rows.versions &&
    rows.versions[job.version].course == job.course &&
    rows.versions[job.version].pipeline == job.pipeline &&
    EventKey(j, Ingestion) in rows.events
  }

  predicate EventRefs(rows: Rows, k: EventKey) {
    k in rows.events && k.job in rows.jobs && rows.events[k].course == rows.jobs[k.job].course
  }

  /** AWAITING_UPLOAD exactly when there is no job; INDEXED content is the confirmed content. */
  ghost predicate VersionInv(rows: Rows, v: Id) {
    v in rows.versions &&
    var version := rows.versions[v];
    && (version.state.AwaitingUpload? <==> version.confirmKey.None?)
    && (version.state.AwaitingUpload? <==> !exists j :: JobOf(rows, v, j))
    && (!version.state.AwaitingUpload? ==>
          version.storageVersion.Some? && version.objectSize == Some(version.expectedSize))
    && (version.state.Indexed? ==> version.objectSha == Some(version.expectedSha))
    && (version.state.Indexed? <==> exists k :: CorpusOf(rows, v, k))
  }

  /** The coupled life cycle of a job, its document version and its outbox events. */
  predicate Lifecycle(c: Config, rows: Rows, j: Id) {
    j in rows.jobs && rows.jobs[j].version in rows.versions &&
    var job := rows.jobs[j];
    var state := rows.versions[job.version].state;
    && job.attempt <= c.maxAttempts
    && (job.fence == job.attempt ||
        (job.state.Failed? && job.failureCode == Some(EXHAUSTED) &&
         job.attempt == c.maxAttempts && job.fence == job.attempt + 1))
    && (job.state.Pending? <==> state.Queued?)
    && (job.state.Running? <==> state.Processing?)
    && (job.state.Succeeded? <==> state.Indexed?)
    && (job.state.Failed? <==> state.Rejected? || state.OcrRequired? || state.VersionFailed?)
    && (job.state.Running? <==> job.lease.Some?)
    && (job.state.Running? ==> job.attempt >= 1)
    && (job.state.Failed? <==> EventKey(j, Dead) in rows.events)
    && (Terminal(job) <==> job.completedAt.Some?)
  }

  predicate CorpusInv(rows: Rows, k: Id) {
    k in rows.corpora &&
    var corpus := rows.corpora[k];
    && corpus.state.Ready? && corpus.chunks != [] && VectorsMatch(corpus.chunks, corpus.vectors)
    && corpus.version in rows.versions
    && var version := rows.versions[corpus.version];
       version.state.Indexed? && version.course == corpus.course &&
       version.pipeline == corpus.pipeline &&
       version.chunkCount == Some(|corpus.chunks|) && version.pageCount == Some(corpus.pages)
  }

  /** An activated corpus is a ready one of that course. */
  predicate CourseInv(rows: Rows, x: Id) {
    x in rows.courses &&
    (rows.courses[x].active.Some? ==>
       rows.courses[x].active.value in rows.corpora &&
       rows.corpora[rows.courses[x].active.value].course == x)
  }

  // ----- the rows together -----

  ghost predicate JobsOk(c: Config, rows: Rows) {
    forall j {:trigger Lifecycle(c, rows, j)} {:trigger JobRefs(rows, j)} | j in rows.jobs ::
      JobRefs(rows, j) && Lifecycle(c, rows, j)
  }

  ghost predicate VersionsOk(rows: Rows) {
    forall v {:trigger VersionInv(rows, v)} | v in rows.versions :: VersionInv(rows, v)
  }

  ghost predicate EventsOk(rows: Rows) {
    forall k {:trigger EventRefs(rows, k)} | k in rows.events :: EventRefs(rows, k)
  }

  ghost predicate CorporaOk(rows: Rows) {
    && (forall k {:trigger CorpusInv(rows, k)} | k in rows.corpora :: CorpusInv(rows, k))
    && (forall x {:trigger CourseInv(rows, x)} | x in rows.courses :: CourseInv(rows, x))
  }

  /** One job per version, one corpus per version, one upload per course and key. */
  ghost predicate Unique(rows: Rows) {
    && (forall v, i, j {:trigger JobOf(rows, v, i), JobOf(rows, v, j)} |
          JobOf(rows, v, i) && JobOf(rows, v, j) :: i == j)
    && (forall v, k, l {:trigger CorpusOf(rows, v, k), CorpusOf(rows, v, l)} |
          CorpusOf(rows, v, k) && CorpusOf(rows, v, l) :: k == l)
    && (forall v, u, x, key {:trigger HasUpload(rows, v, x, key), HasUpload(rows, u, x, key)} |
          HasUpload(rows, v, x, key) && HasUpload(rows, u, x, key) :: v == u)
  }

  ghost predicate RowsInv(c: Config, rows: Rows) {
    JobsOk(c, rows) && VersionsOk(rows) && EventsOk(rows) && CorporaOk(rows) && Unique(rows)
  }

  // ----- identifiers and the work in flight -----

  ghost predicate IdsUsed(s: State) {
    && (forall v :: v in s.rows.versions ==> v < s.nextId)
    && (forall x :: x in s.rows.courses ==> x < s.nextId)
    && (forall j :: j in s.rows.jobs ==> j < s.nextId)
    && (forall k :: k in s.rows.corpora ==> k < s.nextId)
    && (forall r :: r in s.relays ==> r < s.nextId)
    && (forall m :: m in s.stream ==> m < s.nextId)
    && (forall w :: w in s.workers ==> w < s.nextId)
  }

  predicate EventHasId(rows: Rows, k: EventKey, id: Id) {
    k in rows.events && rows.events[k].id == id
  }

  predicate HoldsToken(rows: Rows, k: EventKey, token: Id) {
    k in rows.events && rows.events[k].token == Some(token)
  }

  /** Event primary keys and publish tokens are never shared. */
  ghost predicate EventIds(s: State) {
    && (forall k, id: Id {:trigger EventHasId(s.rows, k, id)} |
          EventHasId(s.rows, k, id) :: id < s.nextId)
    && (forall k, l, id: Id {:trigger EventHasId(s.rows, k, id), EventHasId(s.rows, l, id)} |
          EventHasId(s.rows, k, id) && EventHasId(s.rows, l, id) :: k == l)
    && (forall k, t: Id {:trigger HoldsToken(s.rows, k, t)} | HoldsToken(s.rows, k, t) ::
          t < s.nextId && (t in s.relays ==> s.relays[t].key == k))
  }

  /** A relay in flight carries the envelope of its own event. */
  predicate RelayInv(rows: Rows, relay: Relay) {
    relay.key in rows.events && relay.key.job in rows.jobs &&
    relay.envelope == EnvelopeFor(rows.events[relay.key], relay.key.job, rows.jobs[relay.key.job])
  }

  /** A claim names its job's true scope and a fence the job has already reached. */
  predicate ClaimInv(rows: Rows, claim: Claim) {
    claim.job in rows.jobs &&
    var job := rows.jobs[claim.job];
    claim.course == job.course && claim.version == job.version && claim.pipeline == job.pipeline &&
    1 <= claim.fence <= job.fence &&
    claim.version in rows.versions &&
    claim.expectedSize == rows.versions[claim.version].expectedSize &&
    claim.expectedSha == rows.versions[claim.version].expectedSha
  }

  predicate WorkerInv(rows: Rows, worker: Worker) {
    match worker
    case Received(_, _) | Acking(_) => true
    case Working(_, claim) => ClaimInv(rows, claim)
    case Failing(_, claim) => ClaimInv(rows, claim) && !Holds(rows, claim)
    case Deciding(_, job) => job in rows.jobs
  }

  ghost predicate InFlight(s: State) {
    && (forall r {:trigger s.relays[r]} | r in s.relays :: RelayInv(s.rows, s.relays[r]))
    && (forall w {:trigger s.workers[w]} | w in s.workers :: WorkerInv(s.rows, s.workers[w]))
  }

  /** No two workers in flight hold a claim on one job with one fence. */
  ghost predicate OneHolder(s: State) {
    forall w, u {:trigger s.workers[w], s.workers[u]} |
      w in s.workers && u in s.workers && SameClaim(s.workers[w], s.workers[u]) :: w == u
  }

  predicate HasClaim(worker: Worker) { worker.Working? || worker.Failing? }

  predicate SameClaim(a: Worker, b: Worker) {
    HasClaim(a) && HasClaim(b) && a.claim.job == b.claim.job && a.claim.fence == b.claim.fence
  }

  ghost predicate Inv(c: Config, s: State) {
    RowsInv(c, s.rows) && IdsUsed(s) && EventIds(s) && InFlight(s) && OneHolder(s)
  }

  // ----- how rows may change: what a claim or a relay in flight relies on -----

  predicate Settled(version: Version) {
    version.state.Indexed? || version.state.Rejected? || version.state.OcrRequired? ||
    version.state.VersionFailed?
  }

  /** A finished version is never touched again. */
  predicate VersionKept(r: Rows, r': Rows, v: Id) {
    v in r.versions && v in r'.versions &&
    var a, b := r.versions[v], r'.versions[v];
    a.course == b.course && a.pipeline == b.pipeline && a.uploadKey == b.uploadKey &&
    a.expectedSize == b.expectedSize && a.expectedSha == b.expectedSha && (Settled(a) ==> b == a)
  }

  /** Identity never changes, fences never decrease, a lease is only renewed with the fence,
      and a terminal job is never touched again. */
  predicate JobKept(r: Rows, r': Rows, j: Id) {
    j in r.jobs && j in r'.jobs &&
    var a, b := r.jobs[j], r'.jobs[j];
    && a.course == b.course && a.version == b.version
    && a.pipeline == b.pipeline && a.correlation == b.correlation
    && a.fence <= b.fence
    && (b.state.Running? && a.fence == b.fence ==> a.state.Running? && a.lease == b.lease)
    && (Terminal(a) ==> b == a)
  }

  predicate EventKept(r: Rows, r': Rows, k: EventKey) {
    k in r.events && k in r'.events &&
    r.events[k].id == r'.events[k].id && r.events[k].course == r'.events[k].course &&
    r.events[k].createdAt == r'.events[k].createdAt
  }

  ghost predicate JobsKept(r: Rows, r': Rows) {
    forall j {:trigger JobKept(r, r', j)} | j in r.jobs :: JobKept(r, r', j)
  }

  ghost predicate VersionsKept(r: Rows, r': Rows) {
    forall v {:trigger VersionKept(r, r', v)} | v in r.versions :: VersionKept(r, r', v)
  }

  ghost predicate EventsKept(r: Rows, r': Rows) {
    forall k {:trigger EventKept(r, r', k)} | k in r.events :: EventKept(r, r', k)
  }

  ghost predicate CorporaKept(r: Rows, r': Rows) {
    forall k | k in r.corpora :: k in r'.corpora && r'.corpora[k] == r.corpora[k]
  }

  /** No row is ever deleted. */
  ghost predicate Grows(r: Rows, r': Rows) {
    r.now <= r'.now && JobsKept(r, r') && VersionsKept(r, r') && EventsKept(r, r') &&
    CorporaKept(r, r')
  }
}
