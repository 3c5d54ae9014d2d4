/** Safety of durable ingestion over whole runs, for every interleaving of every party. */
module IngestionRuns {
  import opened Options
  import opened IngestionRows
  import opened IngestionSystem
  import opened IngestionInvariant
  import opened IngestionPreservation

  lemma GrowsTransitive(a: Rows, b: Rows, d: Rows)
    requires Grows(a, b) && Grows(b, d)
    ensures Grows(a, d)
  {
    forall j | j in a.jobs ensures JobKept(a, d, j) {
      assert JobKept(a, b, j) && JobKept(b, d, j);
    }
    forall v | v in a.versions ensures VersionKept(a, d, v) {
      assert VersionKept(a, b, v) && VersionKept(b, d, v);
    }
    forall k | k in a.events ensures EventKept(a, d, k) {
      assert EventKept(a, b, k) && EventKept(b, d, k);
    }
  }

  lemma {:induction false} InvAt(c: Config, states: seq<State>, labels: seq<Label>, n: nat)
    requires IsRun(c, states, labels) && n <= |labels|
    ensures Inv(c, states[n])
  {
    if n > 0 {
      InvAt(c, states, labels, n - 1);
      assert StepAt(c, states, labels, n - 1);
      StepInv(c, states[n - 1], labels[n - 1]);
    }
  }

  lemma RunStep(c: Config, states: seq<State>, labels: seq<Label>, i: nat)
    requires IsRun(c, states, labels) && i < |labels|
    ensures StepAt(c, states, labels, i)
    ensures Grows(states[i].rows, states[i + 1].rows) && states[i].nextId <= states[i + 1].nextId
  {
    InvAt(c, states, labels, i);
    assert StepAt(c, states, labels, i);
    StepInv(c, states[i], labels[i]);
    StepIds(c, states[i], labels[i]);
  }

  lemma {:induction false} GrowsBetween(c: Config, states: seq<State>, labels: seq<Label>,
                                        m: nat, n: nat)
    requires IsRun(c, states, labels) && m <= n <= |labels|
    ensures Grows(states[m].rows, states[n].rows) && states[m].nextId <= states[n].nextId
    decreases n
  {
    if m < n {
      GrowsBetween(c, states, labels, m, n - 1);
      RunStep(c, states, labels, n - 1);
      GrowsTransitive(states[m].rows, states[n - 1].rows, states[n].rows);
    } else {
      GrowsRefl(states[n].rows);
    }
  }

  // ----- the joint life cycle, spelled out -----

  /** At every moment of every run: a version awaits its upload exactly while it has no job; a job,
      its version, its outbox events and its corpus agree; attempts and fences are bounded. */
  lemma JointLifecycle(c: Config, states: seq<State>, labels: seq<Label>, n: nat, v: Id)
    requires IsRun(c, states, labels) && n <= |labels| && v in states[n].rows.versions
    ensures var r := states[n].rows;
            (r.versions[v].state.AwaitingUpload? <==> !exists j :: JobOf(r, v, j))
    ensures forall j :: JobOf(states[n].rows, v, j) ==>
      var r := states[n].rows;
      var job, state := r.jobs[j], r.versions[v].state;
      && EventKey(j, Ingestion) in r.events
      && (job.state.Pending? <==> state.Queued?)
      && (job.state.Running? <==> state.Processing?)
      && (job.state.Running? <==> job.lease.Some?)
      && (job.state.Succeeded? <==> state.Indexed?)
      && (job.state.Succeeded? <==> exists k :: CorpusOf(r, v, k) && r.corpora[k].state.Ready?)
      && (job.state.Failed? <==> EventKey(j, Dead) in r.events)
      && job.attempt <= c.maxAttempts
      && job.attempt <= job.fence <= job.attempt + 1
      && (job.fence != job.attempt ==> job.state.Failed? && job.failureCode == Some(EXHAUSTED))
  {
    var r := states[n].rows;
    InvAt(c, states, labels, n);
    assert VersionInv(r, v);
    forall j | JobOf(r, v, j)
      ensures JobRefs(r, j) && Lifecycle(c, r, j)
      ensures r.jobs[j].state.Succeeded? <==>
                exists k :: CorpusOf(r, v, k) && r.corpora[k].state.Ready?
    {
      assert JobRefs(r, j) && Lifecycle(c, r, j);
      if r.jobs[j].state.Succeeded? {
        var k :| CorpusOf(r, v, k);
        assert CorpusInv(r, k);
      }
    }
  }

  /** INDEXED means: exactly one corpus, of the same course and pipeline, holding as many chunks as
      the version says and one vector for each if any, built from an object with the confirmed size
      and checksum. */
  lemma IndexedIntegrity(c: Config, states: seq<State>, labels: seq<Label>, n: nat, v: Id)
    requires IsRun(c, states, labels) && n <= |labels| && v in states[n].rows.versions
    requires states[n].rows.versions[v].state.Indexed?
    ensures var r := states[n].rows;
            r.versions[v].objectSha == Some(r.versions[v].expectedSha) &&
            r.versions[v].objectSize == Some(r.versions[v].expectedSize) &&
            exists k :: CorpusOf(r, v, k) && (forall l :: CorpusOf(r, v, l) ==> l == k) &&
              r.corpora[k].course == r.versions[v].course &&
              r.corpora[k].pipeline == r.versions[v].pipeline &&
              r.versions[v].chunkCount == Some(|r.corpora[k].chunks|) && r.corpora[k].chunks != [] &&
              VectorsMatch(r.corpora[k].chunks, r.corpora[k].vectors)
  {
    var r := states[n].rows;
    InvAt(c, states, labels, n);
    assert VersionInv(r, v);
    var k :| CorpusOf(r, v, k);
    assert CorpusInv(r, k);
  }

  /** However often an upload is created or confirmed: one version per course and key, one job per
      version, and at most one corpus linked to it. */
  lemma OneOfEach(c: Config, states: seq<State>, labels: seq<Label>, n: nat)
    requires IsRun(c, states, labels) && n <= |labels|
    ensures var r := states[n].rows;
      && (forall v, w, x, key :: HasUpload(r, v, x, key) && HasUpload(r, w, x, key) ==> v == w)
      && (forall v, j, k :: JobOf(r, v, j) && JobOf(r, v, k) ==> j == k)
      && (forall v, k, l :: CorpusOf(r, v, k) && CorpusOf(r, v, l) ==> k == l)
  {
    InvAt(c, states, labels, n);
  }

  /** The active corpus of a course is always a ready corpus of that course. */
  lemma ActiveIsReady(c: Config, states: seq<State>, labels: seq<Label>, n: nat, x: Id)
    requires IsRun(c, states, labels) && n <= |labels| && x in states[n].rows.courses
    requires states[n].rows.courses[x].active.Some?
    ensures var r := states[n].rows;
            var k := r.courses[x].active.value;
            k in r.corpora && r.corpora[k].course == x && r.corpora[k].state.Ready?
  {
    InvAt(c, states, labels, n);
    assert CourseInv(states[n].rows, x);
    assert CorpusInv(states[n].rows, states[n].rows.courses[x].active.value);
  }

  predicate RaisesInClaim(c: Config, s: State, l: Label) {
    l.TryClaim? && l.worker in s.workers && s.workers[l.worker].Received? &&
    ClaimTx(c, s.rows, s.workers[l.worker].envelope, s.nextId).1.NotEnterable?
  }

  predicate RaisesInPersist(s: State, l: Label) {
    l.Persist? && l.worker in s.workers && s.workers[l.worker].Working? &&
    var claim := s.workers[l.worker].claim;
    Examine(claim, l.world).Built? &&
    var result := PersistSuccessTx(s.rows, claim, Examine(claim, l.world).build, s.nextId).1;
    result.NotIndexable? || result.CountMismatch?
  }

  /** The errors "could not enter PROCESSING", "no immutable storage version", "embedding count
      mismatch" and "could not enter INDEXED" are unreachable. */
  lemma NeverInconsistent(c: Config, states: seq<State>, labels: seq<Label>, i: nat)
    requires IsRun(c, states, labels) && i < |labels|
    ensures !RaisesInClaim(c, states[i], labels[i]) && !RaisesInPersist(states[i], labels[i])
  {
    var s, l := states[i], labels[i];
    InvAt(c, states, labels, i);
    if l.TryClaim? && l.worker in s.workers && s.workers[l.worker].Received? {
      ClaimSafe(c, s.rows, s.workers[l.worker].envelope, s.nextId);
    }
    if l.Persist? && l.worker in s.workers && s.workers[l.worker].Working? {
      var claim := s.workers[l.worker].claim;
      assert WorkerInv(s.rows, s.workers[l.worker]);
      if Examine(claim, l.world).Built? {
        SuccessSafe(c, s.rows, claim, Examine(claim, l.world).build, s.nextId);
      }
    }
  }

  // ----- terminal jobs -----

  /** Once a job is terminal, its row, its version's row and the corpora of that version never
      change again, and its outbox events are never removed. */
  lemma TerminalForever(c: Config, states: seq<State>, labels: seq<Label>, m: nat, n: nat, j: Id)
    requires IsRun(c, states, labels) && m <= n <= |labels|
    requires j in states[m].rows.jobs && Terminal(states[m].rows.jobs[j])
    ensures var r, r' := states[m].rows, states[n].rows;
      var v := r.jobs[j].version;
      && j in r'.jobs && r'.jobs[j] == r.jobs[j]
      && v in r.versions && v in r'.versions && r'.versions[v] == r.versions[v]
      && (forall k :: CorpusOf(r, v, k) <==> CorpusOf(r', v, k))
      && (forall k :: CorpusOf(r, v, k) ==> r'.corpora[k] == r.corpora[k])
      && (forall kind :: EventKey(j, kind) in r.events <==> EventKey(j, kind) in r'.events)
  {
    var r, r' := states[m].rows, states[n].rows;
    var v := r.jobs[j].version;
    GrowsBetween(c, states, labels, m, n);
    InvAt(c, states, labels, m);
    InvAt(c, states, labels, n);
    assert JobKept(r, r', j) && JobRefs(r, j) && Lifecycle(c, r, j) && VersionKept(r, r', v);
    assert JobRefs(r', j) && Lifecycle(c, r', j) && VersionInv(r, v) && VersionInv(r', v);
    forall k ensures CorpusOf(r, v, k) <==> CorpusOf(r', v, k) {
      if CorpusOf(r', v, k) {
        var l :| CorpusOf(r, v, l);
        assert CorpusOf(r', v, l);
      }
    }
    forall kind ensures EventKey(j, kind) in r.events <==> EventKey(j, kind) in r'.events {
      assert kind.Ingestion? || kind.Dead?;
    }
  }

  // ----- exactly once -----

  /** Step i commits `_persist_success` for job j. */
  ghost predicate Commits(states: seq<State>, labels: seq<Label>, i: int, j: Id) {
    0 <= i < |labels| < |states| && labels[i].Persist? &&
    var s, w := states[i], labels[i].worker;
    w in s.workers && s.workers[w].Working? && s.workers[w].claim.job == j &&
    Succeeds(s.workers[w].claim, labels[i].world) && Holds(s.rows, s.workers[w].claim)
  }

  /** A commit ends the job and leaves a new corpus with exactly the chunks that the parser found and
      the vectors that the embedder gave for them, if there is one. */
  lemma CommitEffect(c: Config, states: seq<State>, labels: seq<Label>, i: nat, j: Id)
    requires IsRun(c, states, labels) && Commits(states, labels, i, j)
    ensures var s, r' := states[i], states[i + 1].rows;
      && s.rows.jobs[j].state.Running?
      && j in r'.jobs && r'.jobs[j].state.Succeeded?
      && s.nextId !in s.rows.corpora && CorpusOf(r', r'.jobs[j].version, s.nextId)
      && labels[i].world.parse.Parsed?
      && r'.corpora[s.nextId].chunks == labels[i].world.parse.chunks
      && r'.corpora[s.nextId].pages == labels[i].world.parse.pages
      && (if labels[i].world.embed.NoEmbedder? then r'.corpora[s.nextId].vectors.None?
          else labels[i].world.embed.Embedded? &&
               r'.corpora[s.nextId].vectors == Some(labels[i].world.embed.vectors))
  {
    InvAt(c, states, labels, i);
    assert StepAt(c, states, labels, i);
    var claim := states[i].workers[labels[i].worker].claim;
    assert WorkerInv(states[i].rows, states[i].workers[labels[i].worker]);
    ExamineMeans(claim, labels[i].world);
    SuccessSafe(c, states[i].rows, claim, Examine(claim, labels[i].world).build, states[i].nextId);
  }

  /** At most one `_persist_success` ever commits per job, whatever is delivered how often. */
  lemma AtMostOneCommit(c: Config, states: seq<State>, labels: seq<Label>, i: nat, k: nat, j: Id)
    requires IsRun(c, states, labels)
    requires Commits(states, labels, i, j) && Commits(states, labels, k, j)
    ensures i == k
  {
    if i < k { NoSecondCommit(c, states, labels, i, k, j); }
    if k < i { NoSecondCommit(c, states, labels, k, i, j); }
  }

  lemma NoSecondCommit(c: Config, states: seq<State>, labels: seq<Label>, i: nat, k: nat, j: Id)
    requires IsRun(c, states, labels) && i < k
    requires Commits(states, labels, i, j)
    ensures !Commits(states, labels, k, j)
  {
    CommitEffect(c, states, labels, i, j);
    if k < |labels| { TerminalForever(c, states, labels, i + 1, k, j); }
  }

  predicate NotYet(r: Rows, j: Id) { j in r.jobs ==> !r.jobs[j].state.Succeeded? }

  lemma SuccessIsOwn(r: Rows, claim: Claim, build: Build, corpus: Id, j: Id)
    requires NotYet(r, j) && !NotYet(PersistSuccessTx(r, claim, build, corpus).0, j)
    ensures Holds(r, claim) && claim.job == j
  {
  }

  lemma FailureIsNoSuccess(c: Config, r: Rows, claim: Claim, code: string, state: FailureState,
                           transient: bool, delay: Time, dead: Id, j: Id)
    requires NotYet(r, j)
    ensures NotYet(PersistFailureTx(c, r, claim, code, state, transient, delay, dead).0, j)
  {
  }

  lemma OnlyPersistSucceeds(c: Config, s: State, w: Id, world: World, delay: Time, j: Id)
    requires Enabled(c, s, Persist(w, world, delay)) && NotYet(s.rows, j)
    requires !NotYet(Next(c, s, Persist(w, world, delay)).rows, j)
    ensures var claim := s.workers[w].claim;
      Succeeds(claim, world) && Holds(s.rows, claim) && claim.job == j
  {
    var claim := s.workers[w].claim;
    ExamineMeans(claim, world);
    match Examine(claim, world) {
      case Built(build) => SuccessIsOwn(s.rows, claim, build, s.nextId, j);
      case Broken(code, state, transient) =>
        FailureIsNoSuccess(c, s.rows, claim, code, state, transient, delay, s.nextId, j);
    }
  }

  /** A step makes a job SUCCEEDED only by committing it. */
  lemma OnlyCommitSucceeds(c: Config, states: seq<State>, labels: seq<Label>, i: nat, j: Id)
    requires IsRun(c, states, labels) && i < |labels|
    requires NotYet(states[i].rows, j) && !NotYet(states[i + 1].rows, j)
    ensures Commits(states, labels, i, j)
  {
    assert StepAt(c, states, labels, i);
    var s, l := states[i], labels[i];
    if l.Persist? {
      OnlyPersistSucceeds(c, s, l.worker, l.world, l.delay, j);
    } else {
      NoSuccess(c, s, l, j);
    }
  }

  lemma NoSuccess(c: Config, s: State, l: Label, j: Id)
    requires Enabled(c, s, l) && !l.Persist? && NotYet(s.rows, j)
    ensures NotYet(Next(c, s, l).rows, j)
  {
    if ByWorker(l) { NoSuccessByWorker(c, s, l, j); } else { NoSuccessByOthers(c, s, l, j); }
  }

  lemma NoSuccessByWorker(c: Config, s: State, l: Label, j: Id)
    requires Enabled(c, s, l) && ByWorker(l) && !l.Persist? && NotYet(s.rows, j)
    ensures NotYet(Next(c, s, l).rows, j)
  {
    match l
    case TryClaim(w) => ClaimIsNoSuccess(c, s.rows, s.workers[w].envelope, s.nextId, j);
    case RecordFailure(w) =>
      FailureIsNoSuccess(c, s.rows, s.workers[w].claim, PROCESSING_FAILED, VersionFailed, false, 0,
                         s.nextId, j);
  }

  lemma ClaimIsNoSuccess(c: Config, r: Rows, env: Envelope, dead: Id, j: Id)
    requires NotYet(r, j)
    ensures NotYet(ClaimTx(c, r, env, dead).0, j)
  {
  }

  lemma NoSuccessByOthers(c: Config, s: State, l: Label, j: Id)
    requires Enabled(c, s, l) && !ByWorker(l) && NotYet(s.rows, j)
    ensures NotYet(Next(c, s, l).rows, j)
  {
  }

  /** Exactly-once effect: a job is SUCCEEDED exactly when one earlier step committed it. */
  lemma {:induction false} ExactlyOnce(c: Config, states: seq<State>, labels: seq<Label>,
                                       n: nat, j: Id)
    requires IsRun(c, states, labels) && n <= |labels|
    ensures (j in states[n].rows.jobs && states[n].rows.jobs[j].state.Succeeded?)
            <==> exists i :: i < n && Commits(states, labels, i, j)
    ensures forall i, k :: Commits(states, labels, i, j) && Commits(states, labels, k, j) ==> i == k
  {
    forall i, k | Commits(states, labels, i, j) && Commits(states, labels, k, j) ensures i == k {
      AtMostOneCommit(c, states, labels, i, k, j);
    }
    if n > 0 {
      ExactlyOnce(c, states, labels, n - 1, j);
      if j in states[n].rows.jobs && states[n].rows.jobs[j].state.Succeeded? {
        if !(j in states[n - 1].rows.jobs && states[n - 1].rows.jobs[j].state.Succeeded?) {
          OnlyCommitSucceeds(c, states, labels, n - 1, j);
        }
      }
    }
    if i :| i < n && Commits(states, labels, i, j) {
      CommitEffect(c, states, labels, i, j);
      TerminalForever(c, states, labels, i + 1, n, j);
    }
  }

  // ----- fencing -----

  /** Step i grants this claim. */
  ghost predicate Grants(c: Config, states: seq<State>, labels: seq<Label>, i: int, claim: Claim) {
    0 <= i < |labels| < |states| && labels[i].TryClaim? &&
    var s, w := states[i], labels[i].worker;
    w in s.workers && s.workers[w].Received? &&
    ClaimTx(c, s.rows, s.workers[w].envelope, s.nextId).1 == Granted(claim)
  }

  lemma GrantEffect(c: Config, states: seq<State>, labels: seq<Label>, i: nat, claim: Claim)
    requires IsRun(c, states, labels) && Grants(c, states, labels, i, claim)
    ensures claim.job in states[i].rows.jobs && claim.job in states[i + 1].rows.jobs
    ensures states[i].rows.jobs[claim.job].fence < claim.fence
    ensures states[i + 1].rows.jobs[claim.job].fence == claim.fence
  {
    assert StepAt(c, states, labels, i);
  }

  /** Fences strictly increase from grant to grant, and a superseded claim never holds again. */
  lemma LaterGrantFences(c: Config, states: seq<State>, labels: seq<Label>, i: nat, k: nat,
                         n: nat, earlier: Claim, later: Claim)
    requires IsRun(c, states, labels) && i < k < n <= |labels| && earlier.job == later.job
    requires Grants(c, states, labels, i, earlier) && Grants(c, states, labels, k, later)
    ensures earlier.fence < later.fence && !Holds(states[n].rows, earlier)
  {
    GrantEffect(c, states, labels, i, earlier);
    GrantEffect(c, states, labels, k, later);
    GrowsBetween(c, states, labels, i + 1, k);
    GrowsBetween(c, states, labels, k + 1, n);
    assert JobKept(states[i + 1].rows, states[k].rows, earlier.job);
    assert JobKept(states[k + 1].rows, states[n].rows, earlier.job);
  }

  /** A worker's write after `_claim` happens only under its own live lease, while no other worker
      in flight could write; with an old fence or an expired lease it changes no row. */
  lemma WritesOnlyWhileHolding(c: Config, states: seq<State>, labels: seq<Label>, i: nat)
    requires IsRun(c, states, labels) && i < |labels|
    requires labels[i].Persist? || labels[i].RecordFailure?
    requires states[i + 1].rows != states[i].rows
    ensures var s, w := states[i], labels[i].worker;
      && w in s.workers && HasClaim(s.workers[w]) && Holds(s.rows, s.workers[w].claim)
      && labels[i].Persist?
      && forall u | u in s.workers && HasClaim(s.workers[u]) && u != w &&
                    s.workers[u].claim.job == s.workers[w].claim.job ::
           !Holds(s.rows, s.workers[u].claim)
  {
    var s, w := states[i], labels[i].worker;
    InvAt(c, states, labels, i);
    assert StepAt(c, states, labels, i);
    assert WorkerInv(s.rows, s.workers[w]);
    forall u | u in s.workers && HasClaim(s.workers[u]) && u != w &&
               s.workers[u].claim.job == s.workers[w].claim.job
      ensures !Holds(s.rows, s.workers[u].claim)
    {
      assert !SameClaim(s.workers[w], s.workers[u]);
    }
  }

  /** A success rejected by the fence is never turned into a recorded failure, however much later
      the exception handler runs. */
  lemma StaleSuccessIsSilent(c: Config, states: seq<State>, labels: seq<Label>, i: nat)
    requires IsRun(c, states, labels) && i < |labels| && labels[i].RecordFailure?
    ensures states[i + 1].rows == states[i].rows
  {
    if states[i + 1].rows != states[i].rows {
      WritesOnlyWhileHolding(c, states, labels, i);
    }
  }
}
