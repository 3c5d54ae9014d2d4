/** The ingestion transactions as the code performs them: row by row and field by field, on tables
    that are updated in place. Each method is proved to have exactly the effect of the transaction
    function that the protocol proofs are about. */
module IngestionDatabase {
  import opened Options
  import opened IngestionRows

  class Database {
    var now: Time
    var courses: map<Id, Course>
    var versions: map<Id, Version>
    var jobs: map<Id, Job>
    var events: map<EventKey, Event>
    var corpora: map<Id, Corpus>

    ghost function Contents(): Rows
      reads this
    {
      Rows(now, courses, versions, jobs, events, corpora)
    }

    constructor (start: Time)
      ensures Contents() == Rows(start, map[], map[], map[], map[], map[])
    {
      now := start;
      courses, versions, jobs, events, corpora := map[], map[], map[], map[], map[];
    }

    // ----- documents.py -----

    method CreateUpload(id: Id, course: Id, key: string, hash: string, size: nat, sha: string,
                        pipeline: string) returns (r: UploadResult)
      modifies this`versions
      ensures exists known: Option<Id> ::
        && (known.Some? ==> HasUpload(old(Contents()), known.value, course, key))
        && (known.None? ==> forall v :: !HasUpload(old(Contents()), v, course, key))
        && (Contents(), r) ==
             CreateUploadTx(old(Contents()), id, known, course, key, hash, size, sha, pipeline)
    {
      ghost var before := Contents();
      if v :| v in versions && versions[v].course == course && versions[v].uploadKey == key {
        var row := versions[v];
        if row.uploadHash != hash {
          r := UploadKeyReused;
        } else if row.state != AwaitingUpload {
          r := UploadNotReady;
        } else {
          r := UploadKnown(v);
        }
        assert HasUpload(before, v, course, key);
        assert (Contents(), r) ==
          CreateUploadTx(before, id, Some(v), course, key, hash, size, sha, pipeline);
      } else {
        versions := versions[id := Version(course, pipeline, key, hash, size, sha, AwaitingUpload,
                                           None, None, None, None, None, None, None)];
        r := UploadCreated(id);
        assert forall v :: !HasUpload(before, v, course, key);
        assert (Contents(), r) ==
          CreateUploadTx(before, id, None, course, key, hash, size, sha, pipeline);
      }
    }

    method ConfirmUpload(v: Id, key: string, size: nat, storageVersion: string,
                         correlation: string, job: Id, event: Id) returns (r: ConfirmResult)
      modifies this`versions, this`jobs, this`events
      ensures (Contents(), r) ==
        ConfirmTx(old(Contents()), v, key, size, storageVersion, correlation, job, event)
    {
      if v !in versions { return VersionMissing; }
      var version := versions[v];
      if version.confirmKey.Some? {
        if version.confirmKey.value != key { return ConfirmKeyReused; }
        return AlreadyConfirmed;
      }
      if version.state != AwaitingUpload { return ConfirmNotReady; }
      version := version.(confirmKey := Some(key));
      version := version.(objectSize := Some(size));
      version := version.(storageVersion := Some(storageVersion));
      version := version.(state := Queued);
      versions := versions[v := version];
      jobs := jobs[job := Job(version.course, v, version.pipeline, correlation, Pending, 0, 0,
                              None, now, None, None)];
      InsertEvent(job, Ingestion, event);
      r := JobCreated(job);
    }

    /** INSERT ... ON CONFLICT (job, kind) DO NOTHING, for `dispatch` and `record_dead_letter`. */
    method InsertEvent(job: Id, kind: Kind, event: Id)
      requires job in jobs
      modifies this`events
      ensures kind.Ingestion? ==> Contents() == Dispatch(old(Contents()), job, event)
      ensures kind.Dead? ==> Contents() == RecordDeadLetter(old(Contents()), job, event)
      // There is such an event now, and those there were are as they were.
      ensures events.Keys == old(events.Keys) + {EventKey(job, kind)}
      ensures forall k :: k in old(events) ==> events[k] == old(events)[k]
    {
      var key := EventKey(job, kind);
      if key !in events {
        events := events[key := Event(event, jobs[job].course, now, now, None, None, None)];
      }
    }

    method ActivateCorpus(course: Id, corpus: Id, expected: nat) returns (r: ActivateResult)
      modifies this`courses
      ensures (Contents(), r) == ActivateTx(old(Contents()), course, corpus, expected)
      // Of two activations that saw the same version at most one takes effect.
      ensures r.Activated? ==>
        course in old(courses) && old(courses)[course].version == expected &&
        courses == old(courses)[course := Course(Some(corpus), expected + 1)] &&
        corpus in corpora && corpora[corpus].course == course && corpora[corpus].state.Ready?
      ensures !r.Activated? ==> courses == old(courses)
      ensures r.CorpusMissing? <==> !(corpus in corpora && corpora[corpus].course == course)
      ensures r.CorpusNotReady? <==>
        corpus in corpora && corpora[corpus].course == course && corpora[corpus].state.Building?
      ensures !r.CorpusMissing? && !r.CorpusNotReady? ==>
        (r.Activated? <==> course in old(courses) && old(courses)[course].version == expected)
    {
      if corpus !in corpora || corpora[corpus].course != course { return CorpusMissing; }
      if corpora[corpus].state != Ready { return CorpusNotReady; }
      if course in courses && courses[course].version == expected {
        courses := courses[course := Course(Some(corpus), expected + 1)];
        return Activated(expected + 1);
      }
      return Conflict;
    }

    // ----- jobs.py -----

    method ScheduleRetryOf(job: Id, at: Time)
      modifies this`events
      ensures Contents() == ScheduleRetry(old(Contents()), job, at)
      // Nothing is due before the retry, and no relay that has the event in hand can mark it.
      ensures now < at ==> !Due(Contents(), EventKey(job, Ingestion))
      ensures EventKey(job, Ingestion) in events ==> events[EventKey(job, Ingestion)].token.None?
    {
      var key := EventKey(job, Ingestion);
      if key in events {
        events := events[key := events[key].(availableAt := at, publishedAt := None,
                                             token := None, publishLease := None)];
      }
    }

    predicate EventIsDue(k: EventKey): (due: bool)
      reads this
      ensures due == Due(Contents(), k)
    {
      k in events && k.job in jobs && events[k].publishedAt == None &&
      events[k].availableAt <= now &&
      (events[k].publishLease == None || events[k].publishLease.value <= now)
    }

    predicate FirstDue(k: EventKey): (first: bool)
      reads this
      ensures first <==> IsHead(Contents(), k)
    {
      EventIsDue(k) && forall o | o in events :: EventIsDue(o) ==> NotAfter(events[k], events[o])
    }

    /** The first transaction of `publish_one`: SELECT ... ORDER BY available_at, id LIMIT 1. */
    method SelectForPublish(token: Id) returns (head: Option<EventKey>)
      modifies this`events
      ensures head.None? ==> Contents() == old(Contents()) && forall k :: !Due(Contents(), k)
      ensures head.Some? ==> IsHead(old(Contents()), head.value) &&
                             Contents() == SelectTx(old(Contents()), head.value, token)
    {
      if d :| d in events && EventIsDue(d) {
        ghost var before := Contents();
        HeadExists(before, d);
        ghost var h :| h in DueSet(before) && IsHead(before, h);
        assert FirstDue(h);
        var k :| k in events && FirstDue(k);
        assert FirstDue(k);
        var e := events[k];
        e := e.(token := Some(token));
        e := e.(publishLease := Some(now + PUBLISH_LEASE));
        events := events[k := e];
        return Some(k);
      }
      return None;
    }

    /** The second transaction of `publish_one`: one UPDATE by primary key and token. */
    method MarkEventPublished(event: Id, token: Id)
      modifies this`events
      ensures Contents() == MarkPublished(old(Contents()), event, token)
    {
      if k :| k in events && events[k].id == event && events[k].token == Some(token) {
        var hit := set k | k in events && events[k].id == event && events[k].token == Some(token);
        events := events + map k | k in hit :: events[k].(publishedAt := Some(now), token := None,
                                                          publishLease := None);
      }
      assert events == MarkPublished(old(Contents()), event, token).events;
    }

    predicate JobIsDue(j: Id)
      reads this`jobs, this`now
    {
      j in jobs &&
      ((jobs[j].state.Pending? && jobs[j].nextAttemptAt <= now) ||
       (jobs[j].state.Running? && jobs[j].lease.Some? && jobs[j].lease.value <= now))
    }

    /** One UPDATE; the result is the number of rows it hit. */
    method ReconcileStale(stale: Time) returns (count: nat)
      modifies this`events
      ensures Contents() == ReconcileTx(old(Contents()), stale)
      ensures count == |set k | k in old(events) && Stale(old(Contents()), k, stale)|
    {
      var due := set j | j in jobs && JobIsDue(j);
      var hit := set k | k in events && k.kind == Ingestion && k.job in due
                         && events[k].publishedAt.Some?
                         && events[k].publishedAt.value + stale <= now;
      assert hit == set k | k in events && Stale(Contents(), k, stale);
      count := |hit|;
      events := events + map k | k in hit :: events[k].(publishedAt := None, availableAt := now,
                                                        token := None, publishLease := None);
      assert events == ReconcileTx(old(Contents()), stale).events;
    }

    // ----- ingestion.py -----

    method Claim(c: Config, envelope: Envelope, dead: Id) returns (r: ClaimResult)
      modifies this`versions, this`jobs, this`events
      ensures (Contents(), r) == ClaimTx(c, old(Contents()), envelope, dead)
    {
      var j := envelope.job;
      var key := EventKey(j, Ingestion);
      if j !in jobs || key !in events || EnvelopeFor(events[key], j, jobs[j]) != envelope {
        return ScopeMismatch;
      }
      var job := jobs[j];
      if job.state == Succeeded || job.state == Failed { return Refused; }
      if (job.state == Pending && job.nextAttemptAt > now)
         || (job.state == Running && job.lease.Some? && job.lease.value > now) {
        return Refused;
      }
      if job.attempt >= c.maxAttempts {
        job := job.(state := Failed);
        job := job.(failureCode := Some(EXHAUSTED));
        job := job.(completedAt := Some(now));
        job := job.(lease := None);
        job := job.(fence := job.fence + 1);
        jobs := jobs[j := job];
        if job.version in versions && versions[job.version].course == job.course {
          versions := versions[job.version := versions[job.version].(
            state := VersionFailed, failureCode := Some(EXHAUSTED))];
        }
        InsertEvent(j, Dead, dead);
        return Refused;
      }
      var jobsBefore := jobs;
      job := job.(state := Running);
      job := job.(attempt := job.attempt + 1);
      job := job.(fence := job.fence + 1);
      job := job.(lease := Some(now + c.lease));
      jobs := jobs[j := job];
      var updated := 0;
      if job.version in versions && versions[job.version].course == job.course
         && (versions[job.version].state == Queued || versions[job.version].state == Processing) {
        updated := 1;
      }
      if updated != 1 || versions[job.version].storageVersion == None {
        jobs := jobsBefore;                     // the exception rolls the transaction back
        return NotEnterable;
      }
      versions := versions[job.version := versions[job.version].(state := Processing)];
      var version := versions[job.version];
      r := Granted(IngestionRows.Claim(j, job.course, job.version, version.storageVersion.value,
                                       version.expectedSize, version.expectedSha, job.pipeline,
                                       job.fence));
    }

    method OwnsLease(claim: Claim) returns (b: bool)
      ensures b == Holds(Contents(), claim)
    {
      b := claim.job in jobs && jobs[claim.job].state == Running
           && jobs[claim.job].fence == claim.fence
           && jobs[claim.job].lease.Some? && jobs[claim.job].lease.value > now;
    }

    method PersistSuccess(claim: Claim, build: Build, corpus: Id) returns (r: SuccessResult)
      modifies this`versions, this`jobs, this`corpora
      ensures (Contents(), r) == PersistSuccessTx(old(Contents()), claim, build, corpus)
    {
      var active := OwnsLease(claim);
      if !active { return StaleFence; }
      var corporaBefore := corpora;
      var row := Corpus(claim.course, claim.version, claim.pipeline, Building, build.pages, [], None);
      for i := 0 to |build.chunks|
        invariant row == Corpus(claim.course, claim.version, claim.pipeline, Building, build.pages,
                                build.chunks[..i], None)
      {
        row := row.(chunks := row.chunks + [build.chunks[i]]);
      }
      assert build.chunks[..|build.chunks|] == build.chunks;
      if build.vectors.Some? {
        if |build.vectors.value| != |build.chunks| { return CountMismatch; }
        var stored: seq<Vector> := [];
        for i := 0 to |build.vectors.value|
          invariant stored == build.vectors.value[..i]
        {
          stored := stored + [build.vectors.value[i]];
        }
        assert stored == build.vectors.value;
        row := row.(vectors := Some(stored));
      }
      assert row.vectors == build.vectors;
      corpora := corpora[corpus := row];
      corpora := corpora[corpus := corpora[corpus].(state := Ready)];
      assert corpora == corporaBefore[corpus := row.(state := Ready)];
      if claim.version !in versions || versions[claim.version].course != claim.course
         || versions[claim.version].state != Processing {
        corpora := corporaBefore;
        return NotIndexable;
      }
      versions := versions[claim.version := versions[claim.version].(
        state := Indexed, objectSize := Some(build.size), objectSha := Some(build.sha),
        pageCount := Some(build.pages), chunkCount := Some(|build.chunks|), failureCode := None)];
      var job := jobs[claim.job];
      job := job.(state := Succeeded);
      job := job.(failureCode := None);
      job := job.(completedAt := Some(now));
      job := job.(lease := None);
      jobs := jobs[claim.job := job];
      r := Committed;
    }

    method PersistFailure(c: Config, claim: Claim, code: string, state: FailureState,
                          transient: bool, delay: Time, dead: Id) returns (recorded: bool)
      modifies this`versions, this`jobs, this`events
      ensures (Contents(), recorded) ==
        PersistFailureTx(c, old(Contents()), claim, code, state, transient, delay, dead)
    {
      var active := OwnsLease(claim);
      if !active { return false; }
      var job := jobs[claim.job];
      var retry := transient && job.attempt < c.maxAttempts;
      job := job.(state := if retry then Pending else Failed);
      job := job.(failureCode := Some(code));
      job := job.(lease := None);
      if retry {
        job := job.(nextAttemptAt := now + delay);
        jobs := jobs[claim.job := job];
        ScheduleRetryOf(claim.job, job.nextAttemptAt);
      } else {
        job := job.(completedAt := Some(now));
        jobs := jobs[claim.job := job];
        InsertEvent(claim.job, Dead, dead);
      }
      if claim.version in versions && versions[claim.version].course == claim.course
         && versions[claim.version].state == Processing {
        versions := versions[claim.version := versions[claim.version].(
          state := if retry then Queued else state, failureCode := Some(code))];
      }
      recorded := true;
    }

    method MayAcknowledge(job: Id) returns (b: bool)
      ensures b == Acknowledgeable(Contents(), job)
      ensures !b <==> job !in jobs || jobs[job].state.Running?
    {
      b := job in jobs && (jobs[job].state == Succeeded || jobs[job].state == Failed
                           || jobs[job].state == Pending);
    }
  }

  // ----- IngestionWorker._embed -----

  const EMBED_BATCH: nat := 32

  /** What the embedder does with one batch; `Late` is the deadline seen before the call. */
  datatype BatchAnswer = Late | Down | Invalid | Vectors(vectors: seq<Vector>)
  datatype EmbedError = EmbeddingUnavailable | EmbeddingInvalid

  predicate GoodVector(v: Vector, dims: int) {
    |v| == dims && forall x | x in v :: x.Finite?
  }

  function BatchSize(total: nat, start: nat): nat
    requires start < total
  {
    if total - start < EMBED_BATCH then total - start else EMBED_BATCH
  }

  predicate GoodBatch(answer: BatchAnswer, size: nat, dims: int) {
    answer.Vectors? && |answer.vectors| == size &&
    forall v | v in answer.vectors :: GoodVector(v, dims)
  }

  /** Vector i of the result is the one the embedder gave for chunk i; a success covers every chunk,
      so the "embedding count mismatch" check after it never fires. Otherwise the first bad batch
      decides the error. */
  method Embed(total: nat, dims: Option<int>, answer: nat -> BatchAnswer)
      returns (r: Result<seq<Vector>, EmbedError>)
    ensures dims.None? ==> r == Err(EmbeddingInvalid)
    ensures r.Ok? <==> dims.Some? && forall b: nat :: b * EMBED_BATCH < total ==>
      GoodBatch(answer(b), BatchSize(total, b * EMBED_BATCH), dims.value)
    ensures r.Ok? ==> |r.value| == total
    ensures r.Ok? ==> forall i :: 0 <= i < total ==>
      answer(i / EMBED_BATCH).Vectors? && i % EMBED_BATCH < |answer(i / EMBED_BATCH).vectors| &&
      r.value[i] == answer(i / EMBED_BATCH).vectors[i % EMBED_BATCH] &&
      |r.value[i]| == dims.value && forall x | x in r.value[i] :: x.Finite?
    ensures r.Err? && dims.Some? ==> exists b: nat ::
      && b * EMBED_BATCH < total
      && !GoodBatch(answer(b), BatchSize(total, b * EMBED_BATCH), dims.value)
      && (r.error.EmbeddingUnavailable? <==> answer(b).Late? || answer(b).Down?)
      && forall a: nat :: a < b ==>
           GoodBatch(answer(a), BatchSize(total, a * EMBED_BATCH), dims.value)
  {
    if dims.None? { return Err(EmbeddingInvalid); }
    var vectors: seq<Vector> := [];
    var b: nat := 0;
    while b * EMBED_BATCH < total
      invariant |vectors| == if b * EMBED_BATCH < total then b * EMBED_BATCH else total
      invariant forall a: nat :: a < b && a * EMBED_BATCH < total ==>
        GoodBatch(answer(a), BatchSize(total, a * EMBED_BATCH), dims.value)
      invariant forall i :: 0 <= i < |vectors| ==>
        i / EMBED_BATCH < b &&
        answer(i / EMBED_BATCH).Vectors? && i % EMBED_BATCH < |answer(i / EMBED_BATCH).vectors| &&
        vectors[i] == answer(i / EMBED_BATCH).vectors[i % EMBED_BATCH] &&
        GoodVector(vectors[i], dims.value)
      decreases total - b * EMBED_BATCH
    {
      var reply := answer(b);
      if reply.Late? || reply.Down? { return Err(EmbeddingUnavailable); }
      if reply.Invalid? { return Err(EmbeddingInvalid); }
      if !GoodBatch(reply, BatchSize(total, b * EMBED_BATCH), dims.value) {
        return Err(EmbeddingInvalid);
      }
      vectors := vectors + reply.vectors;
      b := b + 1;
    }
    return Ok(vectors);
  }
}
