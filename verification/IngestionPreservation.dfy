/** Every transaction keeps the row invariant, and every step keeps the joint invariant. */
module IngestionPreservation {
  import opened Options
  import opened IngestionRows
  import opened IngestionSystem
  import opened IngestionInvariant

  /** The quantified clauses of `VersionInv` depend only on who refers to the version. */
  lemma SameOwners(r: Rows, r': Rows, v: Id)
    requires forall j :: JobOf(r', v, j) <==> JobOf(r, v, j)
    requires forall k :: CorpusOf(r', v, k) <==> CorpusOf(r, v, k)
    requires VersionInv(r, v) && v in r'.versions && r'.versions[v] == r.versions[v]
    ensures VersionInv(r', v)
  {
  }

  /** Uniqueness reads only the identity columns. */
  lemma UniqueFrame(r: Rows, r': Rows)
    requires Unique(r)
    requires forall j :: j in r'.jobs ==> j in r.jobs && r'.jobs[j].version == r.jobs[j].version
    requires r'.corpora == r.corpora
    requires r'.versions.Keys == r.versions.Keys && VersionsKept(r, r')
    ensures Unique(r')
  {
    forall v, i, j | JobOf(r', v, i) && JobOf(r', v, j) ensures i == j {
      assert JobOf(r, v, i) && JobOf(r, v, j);
    }
    forall v, k, l | CorpusOf(r', v, k) && CorpusOf(r', v, l) ensures k == l {
      assert CorpusOf(r, v, k) && CorpusOf(r, v, l);
    }
    forall v, u, x, key | HasUpload(r', v, x, key) && HasUpload(r', u, x, key) ensures v == u {
      assert VersionKept(r, r', v) && VersionKept(r, r', u);
      assert HasUpload(r, v, x, key) && HasUpload(r, u, x, key);
    }
  }

  lemma GrowsRefl(r: Rows)
    ensures Grows(r, r)
  {
  }

  // ----- transactions that only touch delivery columns of outbox events -----

  ghost predicate DeliveryOnly(r: Rows, r': Rows) {
    r' == r.(events := r'.events) && r'.events.Keys == r.events.Keys && EventsKept(r, r')
  }

  lemma DeliverySafe(c: Config, r: Rows, r': Rows)
    requires RowsInv(c, r) && DeliveryOnly(r, r')
    ensures RowsInv(c, r') && Grows(r, r')
  {
    forall j | j in r'.jobs ensures JobRefs(r', j) && Lifecycle(c, r', j) {
      assert JobRefs(r, j) && Lifecycle(c, r, j);
    }
    forall k | k in r'.events ensures EventRefs(r', k) { assert EventRefs(r, k) && EventKept(r, r', k); }
    forall v | v in r'.versions ensures VersionInv(r', v) {
      assert VersionInv(r, v);
      forall j ensures JobOf(r', v, j) <==> JobOf(r, v, j) {}
      forall k ensures CorpusOf(r', v, k) <==> CorpusOf(r, v, k) {}
      SameOwners(r, r', v);
    }
    CorporaFrame(r, r');
    UniqueFrame(r, r');
  }

  lemma CorporaFrame(r: Rows, r': Rows)
    requires CorporaOk(r) && r'.corpora == r.corpora && r'.courses == r.courses
    requires forall v :: v in r.versions && r.versions[v].state.Indexed? ==>
      v in r'.versions && r'.versions[v] == r.versions[v]
    ensures CorporaOk(r')
  {
    forall k | k in r'.corpora ensures CorpusInv(r', k) { assert CorpusInv(r, k); }
    forall x | x in r'.courses ensures CourseInv(r', x) { assert CourseInv(r, x); }
  }

  // ----- transactions that edit one unfinished job -----

  predicate SameUpload(v: Version, v': Version) {
    v.course == v'.course && v.pipeline == v'.pipeline && v.uploadKey == v'.uploadKey &&
    v.expectedSize == v'.expectedSize && v.expectedSha == v'.expectedSha &&
    v.confirmKey == v'.confirmKey && v.storageVersion == v'.storageVersion &&
    v.objectSize == v'.objectSize
  }

  predicate SameScope(a: Job, a': Job) {
    a.course == a'.course && a.version == a'.version && a.pipeline == a'.pipeline &&
    a.correlation == a'.correlation
  }

  /** Only job j, its version and its events change; nothing is deleted or re-scoped. */
  ghost predicate Edit(r: Rows, r': Rows, j: Id) {
    && r' == r.(versions := r'.versions, jobs := r'.jobs, events := r'.events)
    && j in r.jobs && j in r'.jobs && r'.jobs == r.jobs[j := r'.jobs[j]]
    && SameScope(r.jobs[j], r'.jobs[j])
    && VersionEdit(r, r', r.jobs[j].version)
    && EventsKept(r, r')
    && (forall k | k in r'.events && k !in r.events ::
          k == EventKey(j, Dead) && r'.events[k].course == r.jobs[j].course)
  }

  predicate VersionEdit(r: Rows, r': Rows, v: Id) {
    v in r.versions && v in r'.versions && r'.versions == r.versions[v := r'.versions[v]] &&
    SameUpload(r.versions[v], r'.versions[v])
  }

  lemma EditJobs(c: Config, r: Rows, r': Rows, j: Id)
    requires RowsInv(c, r) && Edit(r, r', j) && !Terminal(r.jobs[j]) && Lifecycle(c, r', j)
    requires r.jobs[j].fence <= r'.jobs[j].fence
    requires r'.jobs[j].state.Running? ==> r.jobs[j].fence < r'.jobs[j].fence
    ensures JobsOk(c, r') && JobsKept(r, r')
  {
    var v := r.jobs[j].version;
    assert JobOf(r, v, j);
    forall i | i in r'.jobs
      ensures JobRefs(r', i) && Lifecycle(c, r', i) && JobKept(r, r', i)
    {
      assert JobRefs(r, i) && Lifecycle(c, r, i);
      assert EventKept(r, r', EventKey(i, Ingestion));
      if i != j {
        if r.jobs[i].version == v { assert JobOf(r, v, i); }
        if EventKey(i, Dead) in r.events { assert EventKept(r, r', EventKey(i, Dead)); }
      }
    }
  }

  lemma EditVersions(c: Config, r: Rows, r': Rows, j: Id)
    requires RowsInv(c, r) && Edit(r, r', j) && !Terminal(r.jobs[j])
    requires Lifecycle(c, r', j) && !r'.jobs[j].state.Succeeded?
    ensures VersionsOk(r') && VersionsKept(r, r')
  {
    var v := r.jobs[j].version;
    assert Lifecycle(c, r, j) && JobOf(r', v, j) && JobOf(r, v, j);
    forall u | u in r'.versions ensures VersionInv(r', u) && VersionKept(r, r', u) {
      assert VersionInv(r, u);
      forall i ensures JobOf(r', u, i) <==> JobOf(r, u, i) {}
      forall k ensures CorpusOf(r', u, k) <==> CorpusOf(r, u, k) {}
      if u != v { SameOwners(r, r', u); }
    }
  }

  lemma EditEvents(r: Rows, r': Rows, j: Id)
    requires EventsOk(r) && Edit(r, r', j)
    ensures EventsOk(r')
  {
    forall k | k in r'.events ensures EventRefs(r', k) {
      if k in r.events { assert EventRefs(r, k) && EventKept(r, r', k); }
    }
  }

  lemma EditSafe(c: Config, r: Rows, r': Rows, j: Id)
    requires RowsInv(c, r) && Edit(r, r', j) && !Terminal(r.jobs[j])
    requires Lifecycle(c, r', j) && !r'.jobs[j].state.Succeeded?
    requires r.jobs[j].fence <= r'.jobs[j].fence
    requires r'.jobs[j].state.Running? ==> r.jobs[j].fence < r'.jobs[j].fence
    ensures RowsInv(c, r') && Grows(r, r')
  {
    EditJobs(c, r, r', j);
    EditVersions(c, r, r', j);
    EditEvents(r, r', j);
    assert Lifecycle(c, r, j);
    CorporaFrame(r, r');
    UniqueFrame(r, r');
  }

  lemma StartSafe(c: Config, r: Rows, j: Id)
    requires RowsInv(c, r) && j in r.jobs && !Terminal(r.jobs[j])
    requires r.jobs[j].attempt < c.maxAttempts
    ensures StartAttempt(c, r, j).1.Granted?
    ensures RowsInv(c, StartAttempt(c, r, j).0) && Grows(r, StartAttempt(c, r, j).0)
  {
    assert JobRefs(r, j) && Lifecycle(c, r, j) && VersionInv(r, r.jobs[j].version);
    var r' := StartAttempt(c, r, j).0;
    forall k | k in r.events ensures EventKept(r, r', k) {}
    EditSafe(c, r, r', j);
  }

  lemma ExhaustSafe(c: Config, r: Rows, j: Id, dead: Id)
    requires RowsInv(c, r) && j in r.jobs && !Terminal(r.jobs[j])
    requires r.jobs[j].attempt >= c.maxAttempts
    ensures RowsInv(c, Exhaust(r, j, dead)) && Grows(r, Exhaust(r, j, dead))
  {
    assert JobRefs(r, j) && Lifecycle(c, r, j);
    var r' := Exhaust(r, j, dead);
    forall k | k in r.events ensures EventKept(r, r', k) {}
    EditSafe(c, r, r', j);
  }

  lemma FailureSafe(c: Config, r: Rows, claim: Claim, code: string, state: FailureState,
                    transient: bool, delay: Time, dead: Id)
    requires RowsInv(c, r) && ClaimInv(r, claim)
    ensures var r' := PersistFailureTx(c, r, claim, code, state, transient, delay, dead).0;
            RowsInv(c, r') && Grows(r, r')
  {
    var r' := PersistFailureTx(c, r, claim, code, state, transient, delay, dead).0;
    if Holds(r, claim) {
      var j := claim.job;
      assert JobRefs(r, j) && Lifecycle(c, r, j);
      assert ProcessingVersion(r, claim);
      forall k | k in r.events ensures EventKept(r, r', k) {}
      EditSafe(c, r, r', j);
    } else {
      GrowsRefl(r);
    }
  }

  // ----- transactions that insert -----

  lemma SuccessJobs(c: Config, r: Rows, claim: Claim, build: Build, corpus: Id)
    requires RowsInv(c, r) && ClaimInv(r, claim) && Holds(r, claim)
    ensures var r' := PersistSuccessTx(r, claim, build, corpus).0;
            JobsOk(c, r') && JobsKept(r, r')
  {
    var r' := PersistSuccessTx(r, claim, build, corpus).0;
    var j, v := claim.job, claim.version;
    assert JobOf(r, v, j);
    forall i | i in r'.jobs
      ensures JobRefs(r', i) && Lifecycle(c, r', i) && JobKept(r, r', i)
    {
      assert JobRefs(r, i) && Lifecycle(c, r, i);
      if i != j && r.jobs[i].version == v { assert JobOf(r, v, i); }
    }
  }

  lemma SuccessVersions(c: Config, r: Rows, claim: Claim, build: Build, corpus: Id)
    requires RowsInv(c, r) && ClaimInv(r, claim) && Holds(r, claim) && corpus !in r.corpora
    requires ProcessingVersion(r, claim) && VectorsMatch(build.chunks, build.vectors)
    requires build.size == claim.expectedSize && build.sha == claim.expectedSha
    ensures var r' := PersistSuccessTx(r, claim, build, corpus).0;
            VersionsOk(r') && VersionsKept(r, r')
  {
    var r' := PersistSuccessTx(r, claim, build, corpus).0;
    var j, v := claim.job, claim.version;
    forall u | u in r'.versions ensures VersionInv(r', u) && VersionKept(r, r', u) {
      assert VersionInv(r, u);
      forall i ensures JobOf(r', u, i) <==> JobOf(r, u, i) {}
      if u != v {
        forall k ensures CorpusOf(r', u, k) <==> CorpusOf(r, u, k) {}
        SameOwners(r, r', u);
      } else {
        assert JobOf(r, v, j) && JobOf(r', v, j) && CorpusOf(r', v, corpus);
      }
    }
  }

  lemma SuccessCorpora(c: Config, r: Rows, claim: Claim, build: Build, corpus: Id)
    requires CorporaOk(r) && Holds(r, claim) && corpus !in r.corpora
    requires ProcessingVersion(r, claim) && build.chunks != []
    requires VectorsMatch(build.chunks, build.vectors)
    requires claim.pipeline == r.versions[claim.version].pipeline
    ensures CorporaOk(PersistSuccessTx(r, claim, build, corpus).0)
  {
    var r' := PersistSuccessTx(r, claim, build, corpus).0;
    forall k | k in r'.corpora ensures CorpusInv(r', k) {
      if k != corpus { assert CorpusInv(r, k); }
    }
    forall x | x in r'.courses ensures CourseInv(r', x) { assert CourseInv(r, x); }
  }

  lemma SuccessSafe(c: Config, r: Rows, claim: Claim, build: Build, corpus: Id)
    requires RowsInv(c, r) && ClaimInv(r, claim) && corpus !in r.corpora
    requires build.size == claim.expectedSize && build.sha == claim.expectedSha
    requires build.chunks != [] && VectorsMatch(build.chunks, build.vectors)
    ensures var (r', result) := PersistSuccessTx(r, claim, build, corpus);
            RowsInv(c, r') && Grows(r, r') && !result.NotIndexable? && !result.CountMismatch?
  {
    if !Holds(r, claim) { GrowsRefl(r); return; }
    var r' := PersistSuccessTx(r, claim, build, corpus).0;
    assert JobRefs(r, claim.job) && Lifecycle(c, r, claim.job) && VersionInv(r, claim.version);
    assert forall k :: !CorpusOf(r, claim.version, k);
    SuccessJobs(c, r, claim, build, corpus);
    SuccessVersions(c, r, claim, build, corpus);
    SuccessCorpora(c, r, claim, build, corpus);
    SuccessUnique(r, r', claim, corpus);
    forall k | k in r.events ensures EventKept(r, r', k) && EventRefs(r', k) {
      assert EventRefs(r, k);
    }
  }

  lemma SuccessUnique(r: Rows, r': Rows, claim: Claim, corpus: Id)
    requires Unique(r) && corpus !in r.corpora
    requires forall k :: !CorpusOf(r, claim.version, k)
    requires r'.corpora.Keys == r.corpora.Keys + {corpus}
    requires forall k :: k in r.corpora ==> r'.corpora[k] == r.corpora[k]
    requires r'.corpora[corpus].version == claim.version
    requires forall j :: j in r'.jobs ==> j in r.jobs && r'.jobs[j].version == r.jobs[j].version
    requires r'.versions.Keys == r.versions.Keys && VersionsKept(r, r')
    ensures Unique(r')
  {
    forall v | v in r.versions ensures VersionKept(r, r'.(corpora := r.corpora), v) {
      assert VersionKept(r, r', v);
    }
    UniqueFrame(r, r'.(corpora := r.corpora));
    var s := r'.(corpora := r.corpora);
    forall v, i, j | JobOf(r', v, i) && JobOf(r', v, j) ensures i == j {
      assert JobOf(s, v, i) && JobOf(s, v, j);
    }
    forall v, k, l | CorpusOf(r', v, k) && CorpusOf(r', v, l) ensures k == l {
      if k != corpus { assert CorpusOf(r, v, k); }
      if l != corpus { assert CorpusOf(r, v, l); }
    }
    forall v, u, x, key | HasUpload(r', v, x, key) && HasUpload(r', u, x, key) ensures v == u {
      assert HasUpload(s, v, x, key) && HasUpload(s, u, x, key);
    }
  }

  lemma ClaimSafe(c: Config, r: Rows, env: Envelope, dead: Id)
    requires RowsInv(c, r)
    ensures var (r', result) := ClaimTx(c, r, env, dead);
            && RowsInv(c, r') && Grows(r, r') && !result.NotEnterable?
            && (result.Granted? ==> ClaimInv(r', result.claim) && (Holds(r', result.claim) <==> c.lease > 0))
  {
    var (r', result) := ClaimTx(c, r, env, dead);
    if Authentic(r, env) && !Terminal(r.jobs[env.job]) && !Busy(r, r.jobs[env.job]) {
      if r.jobs[env.job].attempt >= c.maxAttempts {
        ExhaustSafe(c, r, env.job, dead);
      } else {
        StartSafe(c, r, env.job);
        assert JobRefs(r, env.job) && Lifecycle(c, r, env.job);
      }
    } else {
      GrowsRefl(r);
    }
  }

  lemma CreateUploadSafe(c: Config, r: Rows, id: Id, known: Option<Id>, course: Id, key: string,
                         hash: string, size: nat, sha: string, pipeline: string)
    requires RowsInv(c, r) && id !in r.versions
    requires known.Some? ==> HasUpload(r, known.value, course, key)
    requires known.None? ==> forall v :: !HasUpload(r, v, course, key)
    ensures var r' := CreateUploadTx(r, id, known, course, key, hash, size, sha, pipeline).0;
            RowsInv(c, r') && Grows(r, r')
  {
    var r' := CreateUploadTx(r, id, known, course, key, hash, size, sha, pipeline).0;
    if known.Some? { GrowsRefl(r); return; }
    forall j | j in r'.jobs ensures JobRefs(r', j) && Lifecycle(c, r', j) {
      assert JobRefs(r, j) && Lifecycle(c, r, j);
    }
    forall k | k in r'.events ensures EventRefs(r', k) { assert EventRefs(r, k); }
    CorporaFrame(r, r');
    forall k | k in r.corpora ensures r.corpora[k].version in r.versions { assert CorpusInv(r, k); }
    forall j | j in r.jobs ensures r.jobs[j].version in r.versions { assert JobRefs(r, j); }
    NewVersion(r, r', id);
    forall v, u, x, k | HasUpload(r', v, x, k) && HasUpload(r', u, x, k) ensures v == u {
      if v != id { assert HasUpload(r, v, x, k); }
      if u != id { assert HasUpload(r, u, x, k); }
    }
    UniqueJobs(r, r');
  }

  lemma NewVersion(r: Rows, r': Rows, id: Id)
    requires VersionsOk(r) && id !in r.versions && id in r'.versions
    requires r' == r.(versions := r.versions[id := r'.versions[id]])
    requires r'.versions[id].state.AwaitingUpload? && r'.versions[id].confirmKey.None?
    requires forall j :: j in r.jobs ==> r.jobs[j].version in r.versions
    requires forall k :: k in r.corpora ==> r.corpora[k].version in r.versions
    ensures VersionsOk(r')
  {
    forall v | v in r'.versions ensures VersionInv(r', v) {
      forall j ensures JobOf(r', v, j) <==> JobOf(r, v, j) {}
      forall k ensures CorpusOf(r', v, k) <==> CorpusOf(r, v, k) {}
      if v != id { assert VersionInv(r, v); SameOwners(r, r', v); }
    }
  }

  lemma UniqueJobs(r: Rows, r': Rows)
    requires Unique(r) && r'.jobs == r.jobs && r'.corpora == r.corpora
    ensures forall v, i, j {:trigger JobOf(r', v, i), JobOf(r', v, j)} |
              JobOf(r', v, i) && JobOf(r', v, j) :: i == j
    ensures forall v, k, l {:trigger CorpusOf(r', v, k), CorpusOf(r', v, l)} |
              CorpusOf(r', v, k) && CorpusOf(r', v, l) :: k == l
  {
    forall v, i, j | JobOf(r', v, i) && JobOf(r', v, j) ensures i == j {
      assert JobOf(r, v, i) && JobOf(r, v, j);
    }
    forall v, k, l | CorpusOf(r', v, k) && CorpusOf(r', v, l) ensures k == l {
      assert CorpusOf(r, v, k) && CorpusOf(r, v, l);
    }
  }

  lemma ConfirmSafe(c: Config, r: Rows, v: Id, key: string, size: nat, storageVersion: string,
                    correlation: string, job: Id, event: Id)
    requires RowsInv(c, r) && job !in r.jobs
    requires v in r.versions ==> size == r.versions[v].expectedSize
    ensures var r' := ConfirmTx(r, v, key, size, storageVersion, correlation, job, event).0;
            RowsInv(c, r') && Grows(r, r')
  {
    var (r', result) := ConfirmTx(r, v, key, size, storageVersion, correlation, job, event);
    if !result.JobCreated? { GrowsRefl(r); return; }
    assert VersionInv(r, v);
    forall k | k in r.events ensures k.job in r.jobs { assert EventRefs(r, k); }
    ConfirmJobs(c, r, v, key, size, storageVersion, correlation, job, event);
    ConfirmVersions(r, v, key, size, storageVersion, correlation, job, event);
    forall k | k in r'.events ensures EventRefs(r', k) {
      if k in r.events { assert EventRefs(r, k); }
    }
    CorporaFrame(r, r');
    ConfirmUnique(r, r', v, job);
  }

  lemma ConfirmJobs(c: Config, r: Rows, v: Id, key: string, size: nat, storageVersion: string,
                    correlation: string, job: Id, event: Id)
    requires JobsOk(c, r) && v in r.versions && VersionInv(r, v) && job !in r.jobs
    requires EventKey(job, Dead) !in r.events && EventKey(job, Ingestion) !in r.events
    requires r.versions[v].state.AwaitingUpload?
    ensures var r' := ConfirmTx(r, v, key, size, storageVersion, correlation, job, event).0;
            JobsOk(c, r') && JobsKept(r, r')
  {
    var r' := ConfirmTx(r, v, key, size, storageVersion, correlation, job, event).0;
    forall i | i in r'.jobs ensures JobRefs(r', i) && Lifecycle(c, r', i) {
      if i != job {
        assert JobRefs(r, i) && Lifecycle(c, r, i) && !JobOf(r, v, i);
      }
    }
  }

  lemma ConfirmVersions(r: Rows, v: Id, key: string, size: nat, storageVersion: string,
                        correlation: string, job: Id, event: Id)
    requires VersionsOk(r) && v in r.versions && job !in r.jobs
    requires r.versions[v].state.AwaitingUpload? && size == r.versions[v].expectedSize
    ensures var r' := ConfirmTx(r, v, key, size, storageVersion, correlation, job, event).0;
            VersionsOk(r') && VersionsKept(r, r')
  {
    var r' := ConfirmTx(r, v, key, size, storageVersion, correlation, job, event).0;
    assert VersionInv(r, v);
    forall u | u in r'.versions ensures VersionInv(r', u) && VersionKept(r, r', u) {
      assert VersionInv(r, u);
      forall k ensures CorpusOf(r', u, k) <==> CorpusOf(r, u, k) {}
      if u != v {
        forall j ensures JobOf(r', u, j) <==> JobOf(r, u, j) {}
        SameOwners(r, r', u);
      } else {
        assert JobOf(r', v, job);
      }
    }
  }

  lemma ConfirmUnique(r: Rows, r': Rows, v: Id, job: Id)
    requires Unique(r) && job !in r.jobs && forall j :: !JobOf(r, v, j)
    requires r'.jobs.Keys == r.jobs.Keys + {job} && r'.jobs[job].version == v
    requires forall j :: j in r.jobs ==> r'.jobs[j] == r.jobs[j]
    requires r'.corpora == r.corpora
    requires r'.versions.Keys == r.versions.Keys && VersionsKept(r, r')
    ensures Unique(r')
  {
    var s := r'.(jobs := r.jobs);
    forall u | u in r.versions ensures VersionKept(r, s, u) { assert VersionKept(r, r', u); }
    UniqueFrame(r, s);
    forall u, i, j | JobOf(r', u, i) && JobOf(r', u, j) ensures i == j {
      if i != job { assert JobOf(r, u, i) && JobOf(s, u, i); }
      if j != job { assert JobOf(r, u, j) && JobOf(s, u, j); }
    }
    forall u, k, l | CorpusOf(r', u, k) && CorpusOf(r', u, l) ensures k == l {
      assert CorpusOf(s, u, k) && CorpusOf(s, u, l);
    }
    forall a, b, x, key | HasUpload(r', a, x, key) && HasUpload(r', b, x, key) ensures a == b {
      assert HasUpload(s, a, x, key) && HasUpload(s, b, x, key);
    }
  }

  // ----- transactions on courses and time -----

  ghost predicate CoursesOnly(r: Rows, r': Rows) {
    r' == r.(now := r'.now, courses := r'.courses) && r.now <= r'.now
  }

  lemma CoursesSafe(c: Config, r: Rows, r': Rows)
    requires RowsInv(c, r) && CoursesOnly(r, r')
    requires forall x :: x in r'.courses ==> CourseInv(r', x)
    ensures RowsInv(c, r') && Grows(r, r')
  {
    forall j | j in r'.jobs ensures JobRefs(r', j) && Lifecycle(c, r', j) {
      assert JobRefs(r, j) && Lifecycle(c, r, j);
    }
    forall v | v in r'.versions ensures VersionInv(r', v) {
      assert VersionInv(r, v);
      forall j ensures JobOf(r', v, j) <==> JobOf(r, v, j) {}
      forall k ensures CorpusOf(r', v, k) <==> CorpusOf(r, v, k) {}
      SameOwners(r, r', v);
    }
    forall k | k in r'.events ensures EventRefs(r', k) { assert EventRefs(r, k); }
    forall k | k in r'.corpora ensures CorpusInv(r', k) { assert CorpusInv(r, k); }
    UniqueFrame(r, r');
  }

  lemma ActivateSafe(c: Config, r: Rows, course: Id, corpus: Id, expected: nat)
    requires RowsInv(c, r)
    ensures var r' := ActivateTx(r, course, corpus, expected).0; RowsInv(c, r') && Grows(r, r')
  {
    var r' := ActivateTx(r, course, corpus, expected).0;
    forall x | x in r'.courses ensures CourseInv(r', x) {
      if x in r.courses { assert CourseInv(r, x); }
    }
    CoursesSafe(c, r, r');
  }

  // ----- every step -----

  lemma SelectSafe(c: Config, r: Rows, k: EventKey, token: Id)
    requires RowsInv(c, r) && k in r.events
    ensures RowsInv(c, SelectTx(r, k, token)) && Grows(r, SelectTx(r, k, token))
  {
    var r' := SelectTx(r, k, token);
    forall o | o in r.events ensures EventKept(r, r', o) {}
    DeliverySafe(c, r, r');
  }

  lemma PublishedSafe(c: Config, r: Rows, event: Id, token: Id)
    requires RowsInv(c, r)
    ensures RowsInv(c, MarkPublished(r, event, token)) && Grows(r, MarkPublished(r, event, token))
  {
    var r' := MarkPublished(r, event, token);
    forall o | o in r.events ensures EventKept(r, r', o) {}
    DeliverySafe(c, r, r');
  }

  lemma ReconcileSafe(c: Config, r: Rows, stale: Time)
    requires RowsInv(c, r)
    ensures RowsInv(c, ReconcileTx(r, stale)) && Grows(r, ReconcileTx(r, stale))
  {
    var r' := ReconcileTx(r, stale);
    forall o | o in r.events ensures EventKept(r, r', o) {}
    DeliverySafe(c, r, r');
  }

  lemma TickSafe(c: Config, r: Rows, elapsed: Time)
    requires RowsInv(c, r)
    ensures RowsInv(c, r.(now := r.now + elapsed)) && Grows(r, r.(now := r.now + elapsed))
  {
    forall x | x in r.courses ensures CourseInv(r.(now := r.now + elapsed), x) {
      assert CourseInv(r, x);
    }
    CoursesSafe(c, r, r.(now := r.now + elapsed));
  }

  lemma CreateCourseSafe(c: Config, r: Rows, id: Id)
    requires RowsInv(c, r)
    ensures var r' := r.(courses := r.courses[id := Course(None, 0)]);
            RowsInv(c, r') && Grows(r, r')
  {
    var r' := r.(courses := r.courses[id := Course(None, 0)]);
    forall x | x in r'.courses ensures CourseInv(r', x) {
      if x != id { assert CourseInv(r, x); }
    }
    CoursesSafe(c, r, r');
  }

  lemma PersistSafe(c: Config, s: State, w: Id, world: World, delay: Time)
    requires RowsInv(c, s.rows) && s.nextId !in s.rows.corpora
    requires w in s.workers && s.workers[w].Working? && ClaimInv(s.rows, s.workers[w].claim)
    requires Enabled(c, s, Persist(w, world, delay))
    ensures var s' := Next(c, s, Persist(w, world, delay));
            RowsInv(c, s'.rows) && Grows(s.rows, s'.rows)
  {
    var claim := s.workers[w].claim;
    match Examine(claim, world) {
      case Built(build) => SuccessSafe(c, s.rows, claim, build, s.nextId);
      case Broken(code, state, transient) =>
        FailureSafe(c, s.rows, claim, code, state, transient, delay, s.nextId);
    }
  }

  predicate ByApi(l: Label) {
    l.Tick? || l.CreateCourse? || l.CreateUpload? || l.Confirm? || l.Activate?
  }

  predicate ByRelay(l: Label) { l.Select? || l.MarkDone? || l.Reconcile? }

  predicate ByWorker(l: Label) { l.TryClaim? || l.Persist? || l.RecordFailure? }

  lemma ApiRows(c: Config, s: State, l: Label)
    requires RowsInv(c, s.rows) && IdsUsed(s) && Enabled(c, s, l) && ByApi(l)
    ensures RowsInv(c, Next(c, s, l).rows) && Grows(s.rows, Next(c, s, l).rows)
  {
    var r := s.rows;
    match l
    case Tick(elapsed) => TickSafe(c, r, elapsed);
    case CreateCourse => CreateCourseSafe(c, r, s.nextId);
    case CreateUpload(known, course, key, hash, size, sha, pipeline) =>
      CreateUploadSafe(c, r, s.nextId, known, course, key, hash, size, sha, pipeline);
    case Confirm(v, key, size, storageVersion, correlation) =>
      ConfirmSafe(c, r, v, key, size, storageVersion, correlation, s.nextId, s.nextId + 1);
    case Activate(course, corpus, expected) => ActivateSafe(c, r, course, corpus, expected);
  }

  lemma RelayRows(c: Config, s: State, l: Label)
    requires RowsInv(c, s.rows) && Enabled(c, s, l) && ByRelay(l)
    ensures RowsInv(c, Next(c, s, l).rows) && Grows(s.rows, Next(c, s, l).rows)
  {
    match l
    case Select(k) => SelectSafe(c, s.rows, k, s.nextId);
    case MarkDone(t) => PublishedSafe(c, s.rows, s.relays[t].envelope.event, t);
    case Reconcile => ReconcileSafe(c, s.rows, c.reconcile);
  }

  lemma WorkerRows(c: Config, s: State, l: Label)
    requires RowsInv(c, s.rows) && IdsUsed(s) && InFlight(s) && Enabled(c, s, l) && ByWorker(l)
    ensures RowsInv(c, Next(c, s, l).rows) && Grows(s.rows, Next(c, s, l).rows)
  {
    match l
    case TryClaim(w) => ClaimSafe(c, s.rows, s.workers[w].envelope, s.nextId);
    case Persist(w, world, delay) =>
      assert WorkerInv(s.rows, s.workers[w]);
      PersistSafe(c, s, w, world, delay);
    case RecordFailure(w) =>
      assert WorkerInv(s.rows, s.workers[w]);
      FailureSafe(c, s.rows, s.workers[w].claim, PROCESSING_FAILED, VersionFailed, false, 0,
                  s.nextId);
  }

  lemma OtherRows(c: Config, s: State, l: Label)
    requires Enabled(c, s, l) && !ByApi(l) && !ByRelay(l) && !ByWorker(l)
    ensures Next(c, s, l).rows == s.rows
  {
  }

  /** What every step does to the rows, whatever the label. */
  lemma StepRows(c: Config, s: State, l: Label)
    requires RowsInv(c, s.rows) && IdsUsed(s) && InFlight(s) && Enabled(c, s, l)
    ensures RowsInv(c, Next(c, s, l).rows) && Grows(s.rows, Next(c, s, l).rows)
  {
    if ByApi(l) {
      ApiRows(c, s, l);
    } else if ByRelay(l) {
      RelayRows(c, s, l);
    } else if ByWorker(l) {
      WorkerRows(c, s, l);
    } else {
      OtherRows(c, s, l);
      GrowsRefl(s.rows);
    }
  }

  /** Rows are only inserted under the step's own fresh identifiers. */
  predicate KeysFrom(r: Rows, r': Rows, id: Id) {
    r'.versions.Keys <= r.versions.Keys + {id} && r'.courses.Keys <= r.courses.Keys + {id} &&
    r'.jobs.Keys <= r.jobs.Keys + {id} && r'.corpora.Keys <= r.corpora.Keys + {id}
  }

  /** New events carry a fresh primary key and no token; only `Select` writes a token. */
  ghost predicate EventsFrom(r: Rows, r': Rows, id: Id) {
    forall k | k in r'.events ::
      if k in r.events then
        r'.events[k].token.Some? ==> r'.events[k].token == r.events[k].token
      else
        r'.events[k].token.None? && (r'.events[k].id == id || r'.events[k].id == id + 1) &&
        forall o | o in r'.events && o !in r.events :: o == k
  }

  /** A PUBLISHED mark is only ever withdrawn. */
  predicate MarksFrom(r: Rows, r': Rows) {
    forall k | k in r'.events && r'.events[k].publishedAt.Some? ::
      k in r.events && r.events[k].publishedAt.Some?
  }

  lemma ApiKeys(c: Config, s: State, l: Label)
    requires Enabled(c, s, l) && ByApi(l)
    ensures KeysFrom(s.rows, Next(c, s, l).rows, s.nextId)
    ensures MarksFrom(s.rows, Next(c, s, l).rows)
    ensures EventsFrom(s.rows, Next(c, s, l).rows, s.nextId)
  {
  }

  lemma RelayKeys(c: Config, s: State, l: Label)
    requires Enabled(c, s, l) && ByRelay(l)
    ensures KeysFrom(s.rows, Next(c, s, l).rows, s.nextId)
    ensures !l.Select? ==> EventsFrom(s.rows, Next(c, s, l).rows, s.nextId)
  {
  }

  lemma ClaimKeys(c: Config, r: Rows, env: Envelope, dead: Id)
    ensures KeysFrom(r, ClaimTx(c, r, env, dead).0, dead)
    ensures EventsFrom(r, ClaimTx(c, r, env, dead).0, dead)
    ensures MarksFrom(r, ClaimTx(c, r, env, dead).0)
  {
  }

  lemma FailureKeys(c: Config, r: Rows, claim: Claim, code: string, state: FailureState,
                    transient: bool, delay: Time, dead: Id)
    requires ClaimInv(r, claim)
    ensures var r' := PersistFailureTx(c, r, claim, code, state, transient, delay, dead).0;
            KeysFrom(r, r', dead) && EventsFrom(r, r', dead) && MarksFrom(r, r')
  {
    if !Holds(r, claim) { return; }
    var r' := PersistFailureTx(c, r, claim, code, state, transient, delay, dead).0;
    if Retries(c, r.jobs[claim.job], transient) {
      RetryKeys(r, claim.job, r.now + delay, dead);
      assert r'.events == ScheduleRetry(r, claim.job, r.now + delay).events;
    } else {
      DeadLetterKeys(r, claim.job, dead);
      assert r'.events == RecordDeadLetter(r, claim.job, dead).events;
    }
  }

  lemma RetryKeys(r: Rows, job: Id, at: Time, id: Id)
    ensures EventsFrom(r, ScheduleRetry(r, job, at), id) && MarksFrom(r, ScheduleRetry(r, job, at))
  {
  }

  lemma DeadLetterKeys(r: Rows, job: Id, dead: Id)
    requires job in r.jobs
    ensures EventsFrom(r, RecordDeadLetter(r, job, dead), dead)
    ensures MarksFrom(r, RecordDeadLetter(r, job, dead))
  {
  }

  lemma SuccessKeys(r: Rows, claim: Claim, build: Build, corpus: Id)
    requires ClaimInv(r, claim)
    ensures var r' := PersistSuccessTx(r, claim, build, corpus).0;
            KeysFrom(r, r', corpus) && EventsFrom(r, r', corpus) && MarksFrom(r, r')
  {
  }

  lemma WorkerKeys(c: Config, s: State, l: Label)
    requires Enabled(c, s, l) && ByWorker(l) && InFlight(s)
    ensures KeysFrom(s.rows, Next(c, s, l).rows, s.nextId)
    ensures MarksFrom(s.rows, Next(c, s, l).rows)
    ensures EventsFrom(s.rows, Next(c, s, l).rows, s.nextId)
  {
    assert WorkerInv(s.rows, s.workers[l.worker]);
    match l
    case TryClaim(w) => ClaimKeys(c, s.rows, s.workers[w].envelope, s.nextId);
    case RecordFailure(w) =>
      FailureKeys(c, s.rows, s.workers[w].claim, PROCESSING_FAILED, VersionFailed, false, 0,
                  s.nextId);
    case Persist(w, world, delay) =>
      var claim := s.workers[w].claim;
      match Examine(claim, world) {
        case Built(build) => SuccessKeys(s.rows, claim, build, s.nextId);
        case Broken(code, state, transient) =>
          FailureKeys(c, s.rows, claim, code, state, transient, delay, s.nextId);
      }
  }

  lemma StepKeys(c: Config, s: State, l: Label)
    requires Enabled(c, s, l) && InFlight(s)
    ensures KeysFrom(s.rows, Next(c, s, l).rows, s.nextId)
    ensures !l.Select? ==> EventsFrom(s.rows, Next(c, s, l).rows, s.nextId)
  {
    if ByApi(l) { ApiKeys(c, s, l); }
    else if ByRelay(l) { RelayKeys(c, s, l); }
    else if ByWorker(l) { WorkerKeys(c, s, l); }
    else { OtherRows(c, s, l); }
  }

  /** How the identifiers of the work in flight move. */
  lemma StepRelayIds(c: Config, s: State, l: Label)
    requires Enabled(c, s, l)
    ensures var s' := Next(c, s, l);
      && s'.relays.Keys <= s.relays.Keys + (if l.Select? then {s.nextId} else {})
      && (forall t :: t in s.relays && t in s'.relays && t != s.nextId ==>
            s'.relays[t].key == s.relays[t].key && s'.relays[t].envelope == s.relays[t].envelope)
  {
  }

  /** A step that spends no identifier inserts nothing. */
  predicate Inserts(s: State, s': State) {
    s'.nextId == s.nextId + 2 ||
    (s'.nextId == s.nextId && s'.stream.Keys <= s.stream.Keys &&
     s'.workers.Keys <= s.workers.Keys && s'.relays.Keys <= s.relays.Keys &&
     s'.rows.versions.Keys == s.rows.versions.Keys && s'.rows.courses.Keys == s.rows.courses.Keys &&
     s'.rows.jobs.Keys == s.rows.jobs.Keys && s'.rows.corpora.Keys == s.rows.corpora.Keys &&
     s'.rows.events.Keys == s.rows.events.Keys)
  }

  lemma StepInserts(c: Config, s: State, l: Label)
    requires Enabled(c, s, l)
    ensures Inserts(s, Next(c, s, l))
  {
  }

  lemma StepQueueIds(c: Config, s: State, l: Label)
    requires Enabled(c, s, l)
    ensures Next(c, s, l).stream.Keys <= s.stream.Keys + {s.nextId}
    ensures Next(c, s, l).workers.Keys <= s.workers.Keys + {s.nextId}
  {
  }

  lemma StepFlightIds(c: Config, s: State, l: Label)
    requires Enabled(c, s, l)
    ensures var s' := Next(c, s, l);
      && s'.relays.Keys <= s.relays.Keys + (if l.Select? then {s.nextId} else {})
      && (forall t :: t in s.relays && t in s'.relays && t != s.nextId ==>
            s'.relays[t].key == s.relays[t].key && s'.relays[t].envelope == s.relays[t].envelope)
      && s'.stream.Keys <= s.stream.Keys + {s.nextId}
      && s'.workers.Keys <= s.workers.Keys + {s.nextId}
      && Inserts(s, s')
  {
    StepRelayIds(c, s, l);
    StepQueueIds(c, s, l);
    StepInserts(c, s, l);
  }

  lemma IdsFollow(s: State, s': State)
    requires IdsUsed(s) && KeysFrom(s.rows, s'.rows, s.nextId) && Inserts(s, s')
    requires s'.relays.Keys <= s.relays.Keys + {s.nextId}
    requires s'.stream.Keys <= s.stream.Keys + {s.nextId}
    requires s'.workers.Keys <= s.workers.Keys + {s.nextId}
    ensures IdsUsed(s')
  {
  }

  lemma StepIds(c: Config, s: State, l: Label)
    requires IdsUsed(s) && InFlight(s) && Enabled(c, s, l)
    ensures IdsUsed(Next(c, s, l)) && s.nextId <= Next(c, s, l).nextId
  {
    StepKeys(c, s, l);
    StepFlightIds(c, s, l);
    IdsFollow(s, Next(c, s, l));
  }

  lemma RelayGrows(r: Rows, r': Rows, relay: Relay)
    requires Grows(r, r') && RelayInv(r, relay)
    ensures RelayInv(r', relay)
  {
    assert EventKept(r, r', relay.key) && JobKept(r, r', relay.key.job);
  }

  /** A claim that lost its lease never gets it back. */
  lemma WorkerGrows(r: Rows, r': Rows, worker: Worker)
    requires Grows(r, r') && WorkerInv(r, worker)
    ensures WorkerInv(r', worker)
  {
    match worker
    case Received(_, _) | Acking(_) =>
    case Working(_, claim) =>
      assert JobKept(r, r', claim.job) && VersionKept(r, r', claim.version);
    case Failing(_, claim) =>
      assert JobKept(r, r', claim.job) && VersionKept(r, r', claim.version);
    case Deciding(_, job) => assert JobKept(r, r', job);
  }

  lemma StepRelays(c: Config, s: State, l: Label)
    requires InFlight(s) && Enabled(c, s, l) && Grows(s.rows, Next(c, s, l).rows)
    ensures var s' := Next(c, s, l);
            forall t :: t in s'.relays ==> RelayInv(s'.rows, s'.relays[t])
  {
    var s' := Next(c, s, l);
    forall t | t in s'.relays ensures RelayInv(s'.rows, s'.relays[t]) {
      if t in s.relays && s'.relays[t].key == s.relays[t].key
         && s'.relays[t].envelope == s.relays[t].envelope {
        RelayGrows(s.rows, s'.rows, s.relays[t]);
      }
    }
  }

  lemma StepWorkers(c: Config, s: State, l: Label)
    requires RowsInv(c, s.rows) && IdsUsed(s) && InFlight(s) && Enabled(c, s, l)
    requires Grows(s.rows, Next(c, s, l).rows)
    ensures var s' := Next(c, s, l);
            forall w :: w in s'.workers ==> WorkerInv(s'.rows, s'.workers[w])
  {
    var s' := Next(c, s, l);
    forall w | w in s'.workers ensures WorkerInv(s'.rows, s'.workers[w]) {
      if w in s.workers && s'.workers[w] == s.workers[w] {
        WorkerGrows(s.rows, s'.rows, s.workers[w]);
      } else {
        StepWorker(c, s, l, w);
      }
    }
  }

  lemma StepWorker(c: Config, s: State, l: Label, w: Id)
    requires RowsInv(c, s.rows) && IdsUsed(s) && InFlight(s) && Enabled(c, s, l)
    requires Grows(s.rows, Next(c, s, l).rows) && w in Next(c, s, l).workers
    requires w in s.workers ==> Next(c, s, l).workers[w] != s.workers[w]
    ensures WorkerInv(Next(c, s, l).rows, Next(c, s, l).workers[w])
  {
    if ByWorker(l) {
      ByWorkerWorker(c, s, l);
    } else {
      OtherWorker(c, s, l, w);
    }
  }

  lemma ByWorkerWorker(c: Config, s: State, l: Label)
    requires RowsInv(c, s.rows) && IdsUsed(s) && InFlight(s) && Enabled(c, s, l) && ByWorker(l)
    requires Grows(s.rows, Next(c, s, l).rows)
    ensures var s' := Next(c, s, l);
      l.worker in s'.workers ==> WorkerInv(s'.rows, s'.workers[l.worker])
  {
    match l
    case TryClaim(w) => ClaimSafe(c, s.rows, s.workers[w].envelope, s.nextId);
    case Persist(w, world, delay) => PersistWorker(c, s, w, world, delay);
    case RecordFailure(w) => WorkerGrows(s.rows, Next(c, s, l).rows, s.workers[w]);
  }

  /** A received delivery, and one about to be acknowledged, promise nothing. */
  lemma OtherWorker(c: Config, s: State, l: Label, w: Id)
    requires Enabled(c, s, l) && !ByWorker(l) && w in Next(c, s, l).workers
    requires w in s.workers ==> Next(c, s, l).workers[w] != s.workers[w]
    ensures Next(c, s, l).workers[w].Received? || Next(c, s, l).workers[w].Acking?
  {
  }

  lemma PersistWorker(c: Config, s: State, w: Id, world: World, delay: Time)
    requires RowsInv(c, s.rows) && IdsUsed(s) && InFlight(s)
    requires Enabled(c, s, Persist(w, world, delay))
    requires Grows(s.rows, Next(c, s, Persist(w, world, delay)).rows)
    ensures var s' := Next(c, s, Persist(w, world, delay));
      w in s'.workers && WorkerInv(s'.rows, s'.workers[w])
  {
    var claim := s.workers[w].claim;
    WorkerGrows(s.rows, Next(c, s, Persist(w, world, delay)).rows, s.workers[w]);
    if Examine(claim, world).Built? {
      SuccessSafe(c, s.rows, claim, Examine(claim, world).build, s.nextId);
    }
  }

  lemma StepEventIds(c: Config, s: State, l: Label)
    requires Inv(c, s) && Enabled(c, s, l) && Grows(s.rows, Next(c, s, l).rows)
    ensures EventIds(Next(c, s, l))
  {
    var s' := Next(c, s, l);
    var r, r' := s.rows, s'.rows;
    StepKeys(c, s, l);
    StepFlightIds(c, s, l);
    if l.Select? {
      SelectEventIds(c, s, l);
      return;
    }
    forall k, id: Id | EventHasId(r', k, id)
      ensures id < s'.nextId && (k in r.events ==> EventHasId(r, k, id))
    {
      if k in r.events { assert EventKept(r, r', k) && EventHasId(r, k, id); }
    }
    forall k, o, id: Id | EventHasId(r', k, id) && EventHasId(r', o, id) ensures k == o {
      if k in r.events && o in r.events {
        assert EventHasId(r, k, id) && EventHasId(r, o, id);
      }
    }
    forall k, t: Id | HoldsToken(r', k, t)
      ensures t < s'.nextId && (t in s'.relays ==> s'.relays[t].key == k)
    {
      assert HoldsToken(r, k, t);
    }
  }

  lemma SelectEventIds(c: Config, s: State, l: Label)
    requires Inv(c, s) && Enabled(c, s, l) && l.Select?
    ensures EventIds(Next(c, s, l))
  {
    var s' := Next(c, s, l);
    forall k, id: Id | EventHasId(s'.rows, k, id) ensures EventHasId(s.rows, k, id) {}
    forall k, t: Id | HoldsToken(s'.rows, k, t)
      ensures t < s'.nextId && (t in s'.relays ==> s'.relays[t].key == k)
    {
      if k != l.head { assert HoldsToken(s.rows, k, t); }
    }
  }

  lemma StepHolders(c: Config, s: State, l: Label)
    requires Inv(c, s) && Enabled(c, s, l)
    ensures OneHolder(Next(c, s, l))
  {
    var s' := Next(c, s, l);
    forall w, u | w in s'.workers && u in s'.workers && SameClaim(s'.workers[w], s'.workers[u])
      ensures w == u
    {
      HolderBefore(c, s, l, w);
      HolderBefore(c, s, l, u);
    }
  }

  /** A claim in flight after a step was in flight before it, or its fence is new. */
  lemma HolderBefore(c: Config, s: State, l: Label, w: Id)
    requires Inv(c, s) && Enabled(c, s, l)
    requires w in Next(c, s, l).workers && HasClaim(Next(c, s, l).workers[w])
    ensures var worker := Next(c, s, l).workers[w];
      || (w in s.workers && SameClaim(s.workers[w], worker) && !l.TryClaim?)
      || (w in s.workers && SameClaim(s.workers[w], worker) && l.TryClaim? && l.worker != w)
      || (l.TryClaim? && l.worker == w && worker.claim.job in s.rows.jobs &&
          worker.claim.fence > s.rows.jobs[worker.claim.job].fence)
    ensures w in s.workers && WorkerInv(s.rows, s.workers[w])
  {
  }

  /** The joint invariant is inductive. */
  lemma StepInv(c: Config, s: State, l: Label)
    requires Inv(c, s) && Enabled(c, s, l)
    ensures Inv(c, Next(c, s, l)) && Grows(s.rows, Next(c, s, l).rows)
  {
    StepRows(c, s, l);
    StepIds(c, s, l);
    StepRelays(c, s, l);
    StepWorkers(c, s, l);
    StepEventIds(c, s, l);
    StepHolders(c, s, l);
  }
}
