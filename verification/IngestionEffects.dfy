/** What each ingestion transaction does, told column by column from the outside: when it takes which
    way, what every affected row holds afterwards, and that nothing else changes. */
module IngestionEffects {
  import opened Options
  import opened IngestionRows
  import opened IngestionSystem
  import opened IngestionInvariant
  import opened IngestionPreservation
  import opened IngestionRuns

  // ----- what stays -----

  /** Only this job, its version and its own events may differ. */
  predicate OnlyOwn(r: Rows, r': Rows, j: Id, v: Id) {
    r'.now == r.now && r'.courses == r.courses &&
    r'.jobs.Keys == r.jobs.Keys && r'.versions.Keys == r.versions.Keys &&
    (forall i | i in r.jobs && i != j :: r'.jobs[i] == r.jobs[i]) &&
    (forall u | u in r.versions && u != v :: r'.versions[u] == r.versions[u]) &&
    (forall k | k in r'.events && k.job != j :: k in r.events && r'.events[k] == r.events[k]) &&
    (forall k | k in r.events :: k in r'.events)
  }

  /** An event that asks to be published now, or from a given time on. */
  predicate Waiting(e: Event, from: Time) {
    e.publishedAt.None? && e.availableAt == from && e.token.None? && e.publishLease.None?
  }

  // ----- a failed attempt -----

  /** A passing failure with attempts left: the job waits for its next attempt, its version is queued
      again, and its event is to be published when the delay is over. */
  predicate Rescheduled(r: Rows, r': Rows, j: Id, code: string, at: Time) {
    j in r'.jobs && j in r.jobs && r.jobs[j].version in r'.versions &&
    EventKey(j, Ingestion) in r'.events && r'.events.Keys == r.events.Keys &&
    var (job, version) := (r'.jobs[j], r'.versions[r.jobs[j].version]);
    && job.state.Pending? && job.lease.None? && job.nextAttemptAt == at
    && job.completedAt.None? && job.failureCode == Some(code)
    && job.attempt == r.jobs[j].attempt && job.fence == r.jobs[j].fence
    && version.state.Queued? && version.failureCode == Some(code)
    && Waiting(r'.events[EventKey(j, Ingestion)], at)
  }

  /** Any other failure: the job has failed, with its cause on the version and a dead letter. */
  predicate Buried(r: Rows, r': Rows, j: Id, code: string, state: VersionState) {
    j in r'.jobs && j in r.jobs && r.jobs[j].version in r'.versions &&
    EventKey(j, Ingestion) in r.events && EventKey(j, Ingestion) in r'.events &&
    r'.events.Keys == r.events.Keys + {EventKey(j, Dead)} &&
    var (job, version) := (r'.jobs[j], r'.versions[r.jobs[j].version]);
    && job.state.Failed? && job.lease.None? && job.completedAt == Some(r.now)
    && job.failureCode == Some(code) && job.attempt == r.jobs[j].attempt
    && version.state == state && version.failureCode == Some(code)
    && r'.events[EventKey(j, Ingestion)] == r.events[EventKey(j, Ingestion)]
    && Waiting(r'.events[EventKey(j, Dead)], r.now)
  }

  lemma FailureMeans(c: Config, r: Rows, claim: Claim, code: string, state: FailureState,
                     transient: bool, delay: Time, dead: Id)
    requires RowsInv(c, r) && ClaimInv(r, claim)
    ensures var (r', recorded) := PersistFailureTx(c, r, claim, code, state, transient, delay, dead);
      && recorded == Holds(r, claim)
      && (!recorded ==> r' == r)
      && (recorded ==> OnlyOwn(r, r', claim.job, claim.version) && r'.corpora == r.corpora)
      && (recorded && transient && r.jobs[claim.job].attempt < c.maxAttempts ==>
            Rescheduled(r, r', claim.job, code, r.now + delay))
      && (recorded && !(transient && r.jobs[claim.job].attempt < c.maxAttempts) ==>
            Buried(r, r', claim.job, code, state) && r'.jobs[claim.job].fence == claim.fence)
  {
    if Holds(r, claim) {
      assert JobRefs(r, claim.job) && Lifecycle(c, r, claim.job);
    }
  }

  // ----- a successful attempt -----

  /** The version tells the object and the content, the corpus holds them, and the job is finished. */
  predicate Indexes(r: Rows, r': Rows, claim: Claim, build: Build, corpus: Id) {
    claim.job in r'.jobs && claim.version in r'.versions && corpus in r'.corpora &&
    var (job, version, row) := (r'.jobs[claim.job], r'.versions[claim.version], r'.corpora[corpus]);
    && job.state.Succeeded? && job.lease.None? && job.completedAt == Some(r.now)
    && job.failureCode.None? && job.fence == claim.fence
    && version.state.Indexed? && version.failureCode.None?
    && version.objectSha == Some(build.sha) && version.objectSize == Some(build.size)
    && version.pageCount == Some(build.pages) && version.chunkCount == Some(|build.chunks|)
    && row == Corpus(version.course, claim.version, version.pipeline, Ready, build.pages,
                     build.chunks, build.vectors)
    && r'.corpora.Keys == r.corpora.Keys + {corpus} && r'.events == r.events
    && forall k | k in r.corpora && k != corpus :: r'.corpora[k] == r.corpora[k]
  }

  lemma SuccessMeans(c: Config, r: Rows, claim: Claim, build: Build, corpus: Id)
    requires RowsInv(c, r) && ClaimInv(r, claim)
    ensures var (r', result) := PersistSuccessTx(r, claim, build, corpus);
      && (result.StaleFence? <==> !Holds(r, claim))
      && (result.CountMismatch? <==> Holds(r, claim) && !VectorsMatch(build.chunks, build.vectors))
      && !result.NotIndexable?
      && (!result.Committed? ==> r' == r)
      && (result.Committed? ==>
            OnlyOwn(r, r', claim.job, claim.version) && Indexes(r, r', claim, build, corpus))
  {
    if Holds(r, claim) {
      assert JobRefs(r, claim.job) && Lifecycle(c, r, claim.job);
    }
  }

  // ----- a claim -----

  /** The envelope says what the job and its ingestion event say. */
  predicate Genuine(r: Rows, env: Envelope) {
    env.job in r.jobs && EventKey(env.job, Ingestion) in r.events &&
    var (job, e) := (r.jobs[env.job], r.events[EventKey(env.job, Ingestion)]);
    env.event == e.id && env.createdAt == e.createdAt && env.course == job.course &&
    env.version == job.version && env.pipeline == job.pipeline && env.correlation == job.correlation
  }

  /** Finished, waiting for its next attempt, or under a lease. */
  predicate Unavailable(r: Rows, j: Id) {
    j in r.jobs &&
    (Terminal(r.jobs[j]) || (r.jobs[j].state.Pending? && r.now < r.jobs[j].nextAttemptAt) ||
     (r.jobs[j].state.Running? && r.jobs[j].lease.Some? && r.now < r.jobs[j].lease.value))
  }

  /** A started attempt: a lease of the full length, the next fence, and a claim that names the
      confirmed object. */
  predicate Started(c: Config, r: Rows, r': Rows, claim: Claim) {
    var j := claim.job;
    j in r.jobs && j in r'.jobs && r.jobs[j].version in r.versions && r.jobs[j].version in r'.versions &&
    var (before, job, version) := (r.jobs[j], r'.jobs[j], r'.versions[r.jobs[j].version]);
    && job.state.Running? && job.lease == Some(r.now + c.lease)
    && job.attempt == before.attempt + 1 && job.fence == before.fence + 1
    && version.state.Processing? && r'.events == r.events && r'.corpora == r.corpora
    && claim.fence == job.fence && claim.version == job.version
    && claim.course == job.course && claim.pipeline == job.pipeline
    && version.storageVersion == Some(claim.storageVersion)
    && claim.expectedSize == version.expectedSize && claim.expectedSha == version.expectedSha
  }

  /** Giving up: as after any final failure, and the fence moves so that an old claim cannot write. */
  predicate GivenUp(r: Rows, r': Rows, j: Id) {
    Buried(r, r', j, EXHAUSTED, VersionFailed) && j in r'.jobs && j in r.jobs &&
    r'.jobs[j].fence == r.jobs[j].fence + 1 && r'.corpora == r.corpora
  }

  lemma ClaimMeans(c: Config, r: Rows, env: Envelope, dead: Id)
    requires RowsInv(c, r)
    ensures var (r', result) := ClaimTx(c, r, env, dead);
      if !Genuine(r, env) then result.ScopeMismatch? && r' == r
      else if Unavailable(r, env.job) then result.Refused? && r' == r
      else if r.jobs[env.job].attempt >= c.maxAttempts then result.Refused? && GivenUp(r, r', env.job)
      else result.Granted? && result.claim.job == env.job && Started(c, r, r', result.claim)
    ensures Genuine(r, env) ==>
      OnlyOwn(r, ClaimTx(c, r, env, dead).0, env.job, r.jobs[env.job].version)
  {
    if Genuine(r, env) {
      assert JobRefs(r, env.job) && Lifecycle(c, r, env.job) && VersionInv(r, r.jobs[env.job].version);
    }
  }

  // ----- the entry points -----

  /** The answer to an upload request, from what is stored under its key. */
  lemma CreateMeans(r: Rows, id: Id, known: Option<Id>, course: Id, key: string, hash: string,
                    size: nat, sha: string, pipeline: string)
    requires known.Some? ==> HasUpload(r, known.value, course, key)
    requires known.None? ==> forall v :: !HasUpload(r, v, course, key)
    ensures var (r', result) := CreateUploadTx(r, id, known, course, key, hash, size, sha, pipeline);
      && (result.UploadCreated? <==> forall v :: !HasUpload(r, v, course, key))
      && (result.UploadCreated? ==>
            result.version == id && r' == r.(versions := r'.versions) &&
            r'.versions.Keys == r.versions.Keys + {id} &&
            (forall v | v in r.versions && v != id :: r'.versions[v] == r.versions[v]) &&
            Requested(r'.versions[id], course, key, hash, size, sha, pipeline))
      && (!result.UploadCreated? ==> r' == r)
      && (result.UploadKeyReused? <==> known.Some? && r.versions[known.value].uploadHash != hash)
      && (result.UploadNotReady? <==> known.Some? && TooLate(r.versions[known.value], hash))
      && (result.UploadKnown? ==> Some(result.version) == known)
  {
  }

  /** The same request again, after the upload was confirmed. */
  predicate TooLate(version: Version, hash: string) {
    version.uploadHash == hash && !version.state.AwaitingUpload?
  }

  predicate Requested(version: Version, course: Id, key: string, hash: string, size: nat,
                      sha: string, pipeline: string) {
    version.course == course && version.uploadKey == key && version.uploadHash == hash &&
    version.expectedSize == size && version.expectedSha == sha && version.pipeline == pipeline &&
    version.state.AwaitingUpload? && version.confirmKey.None? && version.storageVersion.None?
  }

  /** The answer to a confirmation: the first one queues the version and inserts its job, due at once,
      with an event to be published at once. */
  lemma ConfirmMeans(r: Rows, v: Id, key: string, size: nat, storageVersion: string,
                     correlation: string, job: Id, event: Id)
    requires job !in r.jobs && EventKey(job, Ingestion) !in r.events
    ensures var (r', result) := ConfirmTx(r, v, key, size, storageVersion, correlation, job, event);
      if v !in r.versions then result.VersionMissing? && r' == r
      else if r.versions[v].confirmKey.Some? then
        r' == r && (result.AlreadyConfirmed? <==> r.versions[v].confirmKey == Some(key)) &&
        (result.ConfirmKeyReused? <==> r.versions[v].confirmKey != Some(key))
      else if !r.versions[v].state.AwaitingUpload? then result.ConfirmNotReady? && r' == r
      else (result == JobCreated(job) &&
            Confirmed(r, r', v, key, size, storageVersion, correlation, job, event))
  {
  }

  predicate Confirmed(r: Rows, r': Rows, v: Id, key: string, size: nat, storageVersion: string,
                      correlation: string, j: Id, event: Id) {
    v in r.versions && v in r'.versions && j in r'.jobs && EventKey(j, Ingestion) in r'.events &&
    r' == r.(versions := r.versions[v := r'.versions[v]], jobs := r.jobs[j := r'.jobs[j]],
             events := r.events[EventKey(j, Ingestion) := r'.events[EventKey(j, Ingestion)]]) &&
    var (version, job, e) := (r'.versions[v], r'.jobs[j], r'.events[EventKey(j, Ingestion)]);
    && version.state.Queued? && version.confirmKey == Some(key) && version.objectSize == Some(size)
    && version.storageVersion == Some(storageVersion)
    && version.expectedSize == r.versions[v].expectedSize && version.expectedSha == r.versions[v].expectedSha
    && job.state.Pending? && job.version == v && job.course == version.course
    && job.pipeline == version.pipeline && job.correlation == correlation && job.attempt == 0
    && job.fence == 0 && job.lease.None? && job.nextAttemptAt == r.now && job.completedAt.None?
    && e.id == event && e.course == job.course && e.createdAt == r.now && Waiting(e, r.now)
  }

  // ----- the outbox -----

  /** A selected event carries the token under a lease of 30 seconds, and no other event changes. */
  lemma SelectMeans(r: Rows, k: EventKey, token: Id)
    requires Due(r, k)
    ensures var r' := SelectTx(r, k, token);
      && r' == r.(events := r'.events) && r'.events.Keys == r.events.Keys
      && (forall o | o in r.events && o != k :: r'.events[o] == r.events[o])
      && HoldsToken(r', k, token) && !Due(r', k)
      && r'.events[k].publishLease == Some(r.now + 30_000_000)
      && r'.events[k].publishedAt.None? && r'.events[k].id == r.events[k].id
  {
  }

  /** Unfinished work that nothing is on its way to: waiting and due, or under an expired lease, and
      its event was published too long ago. */
  predicate Overlooked(r: Rows, k: EventKey, interval: Time) {
    k in r.events && k.kind.Ingestion? && k.job in r.jobs &&
    ((r.jobs[k.job].state.Pending? && r.jobs[k.job].nextAttemptAt <= r.now) ||
     (r.jobs[k.job].state.Running? && r.jobs[k.job].lease.Some? && r.jobs[k.job].lease.value <= r.now)) &&
    r.events[k].publishedAt.Some? && r.events[k].publishedAt.value + interval <= r.now
  }

  /** Reconciling asks again for exactly these events, at once. */
  lemma ReconcileMeans(r: Rows, interval: Time)
    ensures var r' := ReconcileTx(r, interval);
      && r' == r.(events := r'.events) && r'.events.Keys == r.events.Keys
      && forall k | k in r.events ::
           if Overlooked(r, k, interval) then
             Waiting(r'.events[k], r.now) && r'.events[k].id == r.events[k].id &&
             r'.events[k].course == r.events[k].course && r'.events[k].createdAt == r.events[k].createdAt
           else r'.events[k] == r.events[k]
  {
  }

  // ----- over runs -----

  /** A job that a step of its attempt fails had a permanent cause, or no attempt left. */
  lemma FailsForCause(c: Config, states: seq<State>, labels: seq<Label>, i: nat, j: Id)
    requires IsRun(c, states, labels) && i < |labels| && labels[i].Persist?
    requires j in states[i].rows.jobs && j in states[i + 1].rows.jobs
    requires !states[i].rows.jobs[j].state.Failed? && states[i + 1].rows.jobs[j].state.Failed?
    ensures var (s, w) := (states[i], labels[i].worker);
      && w in s.workers && s.workers[w].Working? && s.workers[w].claim.job == j
      && !Succeeds(s.workers[w].claim, labels[i].world)
      && (Passing(s.workers[w].claim, labels[i].world) ==> s.rows.jobs[j].attempt == c.maxAttempts)
  {
    InvAt(c, states, labels, i);
    assert StepAt(c, states, labels, i);
    var s, l := states[i], labels[i];
    assert WorkerInv(s.rows, s.workers[l.worker]);
    assert Lifecycle(c, s.rows, j);
    PersistMeans(c, s, l.worker, l.world, l.delay);
  }

  /** What one `Persist` step does to its job, by cause. */
  lemma PersistMeans(c: Config, s: State, w: Id, world: World, delay: Time)
    requires RowsInv(c, s.rows) && Enabled(c, s, Persist(w, world, delay))
    requires ClaimInv(s.rows, s.workers[w].claim) && s.nextId !in s.rows.corpora
    ensures var (claim, r') := (s.workers[w].claim, Next(c, s, Persist(w, world, delay)).rows);
      && claim.job in s.rows.jobs
      && (!Holds(s.rows, claim) ==> r' == s.rows)
      && (Holds(s.rows, claim) ==> OnlyOwn(s.rows, r', claim.job, claim.version))
      && (Holds(s.rows, claim) && Succeeds(claim, world) ==> r'.jobs[claim.job].state.Succeeded?)
      && (Holds(s.rows, claim) && Passing(claim, world) &&
          s.rows.jobs[claim.job].attempt < c.maxAttempts ==>
            r'.jobs[claim.job].state.Pending? && r'.jobs[claim.job].nextAttemptAt == s.rows.now + delay &&
            EventKey(claim.job, Ingestion) in r'.events &&
            Waiting(r'.events[EventKey(claim.job, Ingestion)], s.rows.now + delay))
      && (Holds(s.rows, claim) && !Succeeds(claim, world) &&
          !(Passing(claim, world) && s.rows.jobs[claim.job].attempt < c.maxAttempts) ==>
            r'.jobs[claim.job].state.Failed?)
  {
    var claim := s.workers[w].claim;
    ExamineMeans(claim, world);
    match Examine(claim, world) {
      case Built(build) => SuccessMeans(c, s.rows, claim, build, s.nextId);
      case Broken(code, state, transient) =>
        FailureMeans(c, s.rows, claim, code, state, transient, delay, s.nextId);
    }
  }

  /** A delivery is given up for acknowledgement only when nobody is at work on its job. */
  lemma DecideMeans(c: Config, s: State, w: Id)
    requires Enabled(c, s, Decide(w))
    ensures var (s', j) := (Next(c, s, Decide(w)), s.workers[w].job);
      && s'.stream == s.stream && s'.rows == s.rows
      && (w in s'.workers <==> j in s.rows.jobs && !s.rows.jobs[j].state.Running?)
      && (w in s'.workers ==> s'.workers[w] == Acking(s.workers[w].msg))
  {
  }
}
