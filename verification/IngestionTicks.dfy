/** The scheduler itself: repeated ticks of one live worker process bring every job to an end. A tick
    follows its fixed order: reconcile if the interval has passed, publish the first due event, take
    one delivery, reclaimed before new. Pauses, fates of attempts and what is left over from other
    processes are arbitrary. */
module IngestionTicks {
  import opened Options
  import opened IngestionRows
  import opened IngestionSystem
  import opened IngestionInvariant
  import opened IngestionPreservation
  import opened IngestionRuns
  import opened IngestionProgress

  /** One process and its consumer group: deliveries not yet acknowledged, with the time of the last
      one, the entry that the next reclaim starts from, and when this process last reconciled. */
  datatype Process = Process(state: State, held: map<Id, Time>, cursor: Id, reconciled: Option<Time>)

  /** What befalls attempt a of job j; an answer with a delay outside the jitter interval does not
      occur, and stands for a worker that hangs. */
  type AllFates = (Id, nat) -> Fate

  // ----- the tick -----

  /** A step of the process, skipped where the code does not get to it. */
  ghost function Do(c: Config, s: State, l: Label): State {
    if Enabled(c, s, l) then Next(c, s, l) else s
  }

  ghost function PublishHeadOf(c: Config, s: State, h: EventKey): State {
    Do(c, Do(c, Do(c, s, Select(h)), Xadd(s.nextId)), MarkDone(s.nextId))
  }

  /** `publish_one`. */
  ghost function Publish(c: Config, s: State): State {
    if exists k :: IsHead(s.rows, k) then
      var k :| IsHead(s.rows, k);
      PublishHeadOf(c, s, k)
    else s
  }

  predicate Reclaimable(c: Config, p: Process, s: State, m: Id) {
    m in s.stream && m in p.held && p.held[m] + c.lease <= s.rows.now && p.cursor <= m
  }

  predicate Fresh(p: Process, s: State, m: Id) { m in s.stream && m !in p.held }

  /** XAUTOCLAIM from the cursor, and XREADGROUP only when that finds nothing. */
  ghost predicate Takes(c: Config, p: Process, s: State, taken: Option<Id>) {
    if exists m :: Reclaimable(c, p, s, m) then
      taken.Some? && Reclaimable(c, p, s, taken.value) &&
      forall m | Reclaimable(c, p, s, m) :: taken.value <= m
    else if exists m :: Fresh(p, s, m) then
      taken.Some? && Fresh(p, s, taken.value) && forall m | Fresh(p, s, m) :: taken.value <= m
    else taken.None?
  }

  function Befalls(s: State, w: Id, fates: AllFates): Label {
    if w in s.workers && s.workers[w].Working? && s.workers[w].claim.job in s.rows.jobs then
      FateLabel(w, fates(s.workers[w].claim.job, s.rows.jobs[s.workers[w].claim.job].attempt))
    else Tick(0)
  }

  /** The delivery received and, unless refused, claimed. */
  ghost function Claimed(c: Config, s: State, m: Id): State {
    Do(c, Do(c, s, Receive(m)), TryClaim(s.nextId))
  }

  /** `process` and the acknowledgement after it. */
  ghost function Consume(c: Config, s: State, m: Id, fates: AllFates): State {
    var w := s.nextId;
    var claimed := Claimed(c, s, m);
    var done := Do(c, claimed, Befalls(claimed, w, fates));
    Do(c, Do(c, Do(c, done, RecordFailure(w)), Decide(w)), Ack(w))
  }

  predicate ReconcileDue(c: Config, p: Process, now: Time) {
    p.reconciled.None? || p.reconciled.value + c.reconcile <= now
  }

  /** The tick up to the point where it takes a delivery. */
  ghost function BeforeTaking(c: Config, p: Process, pause: Time): State {
    var s := Do(c, p.state, Tick(pause));
    Publish(c, if ReconcileDue(c, p, s.rows.now) then Do(c, s, Reconcile) else s)
  }

  /** The state after the delivery, if any, is dealt with. */
  ghost function AfterTaking(c: Config, s: State, taken: Option<Id>, fates: AllFates): State {
    if taken.None? then s else Consume(c, s, taken.value, fates)
  }

  ghost predicate Dies(c: Config, s: State, taken: Option<Id>, fates: AllFates) {
    taken.Some? && Befalls(Claimed(c, s, taken.value), s.nextId, fates).WorkerCrash?
  }

  /** The process after a tick that ended in `s`; one that died is replaced by one that has not
      reconciled yet. */
  function Ticked(c: Config, p: Process, s: State, pause: Time, next: Id, taken: Option<Id>, died: bool)
    : Process
  {
    var now := p.state.rows.now + pause;
    Process(s, if taken.None? then p.held else p.held[taken.value := now], next,
            if died then None else if ReconcileDue(c, p, now) then Some(now) else p.reconciled)
  }

  /** One `tick` after a pause; `next` is where the stream server says to go on reclaiming. */
  ghost function TickOf(c: Config, p: Process, pause: Time, next: Id, taken: Option<Id>,
                        fates: AllFates): Process
  {
    var s := BeforeTaking(c, p, pause);
    Ticked(c, p, AfterTaking(c, s, taken, fates), pause, next, taken, Dies(c, s, taken, fates))
  }

  // ----- times are never far ahead of the clock -----

  predicate JobTimely(c: Config, r: Rows, j: Id) {
    j in r.jobs && r.jobs[j].nextAttemptAt <= r.now + RETRY_CAP &&
    (r.jobs[j].lease.Some? ==> r.jobs[j].lease.value <= r.now + c.lease)
  }

  predicate EventTimely(r: Rows, k: EventKey) {
    k in r.events && r.events[k].availableAt <= r.now + RETRY_CAP &&
    (r.events[k].publishLease.Some? ==> r.events[k].publishLease.value <= r.now + PUBLISH_LEASE) &&
    (r.events[k].publishedAt.Some? ==> r.events[k].publishedAt.value <= r.now)
  }

  ghost predicate Timely(c: Config, r: Rows) {
    && (forall j {:trigger JobTimely(c, r, j)} | j in r.jobs :: JobTimely(c, r, j))
    && (forall k {:trigger EventTimely(r, k)} | k in r.events :: EventTimely(r, k))
  }

  lemma FailureTimely(c: Config, r: Rows, claim: Claim, code: string, state: FailureState,
                      transient: bool, delay: Time, dead: Id)
    requires Timely(c, r)
    requires Holds(r, claim) && Retries(c, r.jobs[claim.job], transient) ==> delay <= RETRY_CAP
    ensures Timely(c, PersistFailureTx(c, r, claim, code, state, transient, delay, dead).0)
  {
    var r' := PersistFailureTx(c, r, claim, code, state, transient, delay, dead).0;
    forall j | j in r'.jobs ensures JobTimely(c, r', j) { assert JobTimely(c, r, j); }
    FailureEventsTimely(c, r, claim, code, state, transient, delay, dead);
  }

  lemma FailureEventsTimely(c: Config, r: Rows, claim: Claim, code: string, state: FailureState,
                            transient: bool, delay: Time, dead: Id)
    requires Timely(c, r)
    requires Holds(r, claim) && Retries(c, r.jobs[claim.job], transient) ==> delay <= RETRY_CAP
    ensures var r' := PersistFailureTx(c, r, claim, code, state, transient, delay, dead).0;
      forall k :: k in r'.events ==> EventTimely(r', k)
  {
    var r' := PersistFailureTx(c, r, claim, code, state, transient, delay, dead).0;
    forall k | k in r'.events ensures EventTimely(r', k) {
      if k in r.events { assert EventTimely(r, k); }
    }
  }

  lemma ClaimTimely(c: Config, r: Rows, env: Envelope, dead: Id)
    requires Timely(c, r)
    ensures Timely(c, ClaimTx(c, r, env, dead).0)
  {
    var r' := ClaimTx(c, r, env, dead).0;
    forall j | j in r'.jobs ensures JobTimely(c, r', j) { assert JobTimely(c, r, j); }
    forall k | k in r'.events ensures EventTimely(r', k) {
      if k in r.events { assert EventTimely(r, k); }
    }
  }

  lemma SuccessTimely(c: Config, r: Rows, claim: Claim, build: Build, corpus: Id)
    requires Timely(c, r)
    ensures Timely(c, PersistSuccessTx(r, claim, build, corpus).0)
  {
    var r' := PersistSuccessTx(r, claim, build, corpus).0;
    forall j | j in r'.jobs ensures JobTimely(c, r', j) { assert JobTimely(c, r, j); }
    forall k | k in r'.events ensures EventTimely(r', k) { assert EventTimely(r, k); }
  }

  lemma PersistTimely(c: Config, s: State, w: Id, world: World, delay: Time)
    requires Timely(c, s.rows) && Enabled(c, s, Persist(w, world, delay))
    ensures Timely(c, Next(c, s, Persist(w, world, delay)).rows)
  {
    var claim := s.workers[w].claim;
    match Examine(claim, world) {
      case Built(build) => SuccessTimely(c, s.rows, claim, build, s.nextId);
      case Broken(code, state, transient) =>
        FailureTimely(c, s.rows, claim, code, state, transient, delay, s.nextId);
    }
  }

  lemma OtherTimely(c: Config, s: State, l: Label)
    requires Timely(c, s.rows) && Enabled(c, s, l) && !ByWorker(l)
    ensures Timely(c, Next(c, s, l).rows)
  {
    var r, r' := s.rows, Next(c, s, l).rows;
    forall j | j in r'.jobs ensures JobTimely(c, r', j) {
      if j in r.jobs { assert JobTimely(c, r, j); }
    }
    forall k | k in r'.events ensures EventTimely(r', k) {
      if k in r.events { assert EventTimely(r, k); }
    }
  }

  lemma StepTimely(c: Config, s: State, l: Label)
    requires Timely(c, s.rows) && Enabled(c, s, l)
    ensures Timely(c, Next(c, s, l).rows)
  {
    match l
    case TryClaim(w) => ClaimTimely(c, s.rows, s.workers[w].envelope, s.nextId);
    case Persist(w, world, delay) => PersistTimely(c, s, w, world, delay);
    case RecordFailure(w) =>
      FailureTimely(c, s.rows, s.workers[w].claim, PROCESSING_FAILED, VersionFailed, false, 0, s.nextId);
    case _ => OtherTimely(c, s, l);
  }

  // ----- a process in the middle of a run -----

  predicate Unfinished(r: Rows, j: Id) { j in r.jobs && !Terminal(r.jobs[j]) }

  ghost predicate Sound(c: Config, p: Process) {
    Inv(c, p.state) && Timely(c, p.state.rows) &&
    (forall m | m in p.held :: m < p.state.nextId) &&
    (p.reconciled.Some? ==> p.reconciled.value <= p.state.rows.now)
  }

  lemma DoInv(c: Config, s: State, l: Label)
    requires Inv(c, s)
    ensures Inv(c, Do(c, s, l)) && Grows(s.rows, Do(c, s, l).rows)
    ensures s.nextId <= Do(c, s, l).nextId
    ensures Timely(c, s.rows) ==> Timely(c, Do(c, s, l).rows)
  {
    if Enabled(c, s, l) {
      StepInv(c, s, l);
      StepIds(c, s, l);
      if Timely(c, s.rows) { StepTimely(c, s, l); }
    } else {
      GrowsRefl(s.rows);
    }
  }

  /** Pausing and reconciling. */
  ghost function Prepared(c: Config, p: Process, pause: Time): State {
    var s := Do(c, p.state, Tick(pause));
    if ReconcileDue(c, p, s.rows.now) then Do(c, s, Reconcile) else s
  }

  function Later(r: Rows, pause: Time): Rows { r.(now := r.now + pause) }

  function PreparedRows(c: Config, p: Process, pause: Time): Rows {
    var r := Later(p.state.rows, pause);
    if ReconcileDue(c, p, r.now) then ReconcileTx(r, c.reconcile) else r
  }

  lemma PreparedSafe(c: Config, p: Process, pause: Time)
    requires Sound(c, p)
    ensures var t := Prepared(c, p, pause);
      Inv(c, t) && Timely(c, t.rows) && t == p.state.(rows := PreparedRows(c, p, pause))
  {
    var s := Do(c, p.state, Tick(pause));
    DoInv(c, p.state, Tick(pause));
    DoInv(c, s, Reconcile);
    assert s == Next(c, p.state, Tick(pause));
  }

  // ----- the measure: attempts left, then events and deliveries that lead to none -----

  /** The attempts that unfinished jobs may still make, and one more each for giving up. */
  function Left(c: Config, r: Rows): set<(Id, nat)> {
    set j, a: nat | j in r.jobs && r.jobs[j].attempt <= a <= c.maxAttempts && !Terminal(r.jobs[j]) ::
      (j, a)
  }

  /** Unpublished events that belong to no unfinished job. */
  function Idle(r: Rows): set<EventKey> {
    set k | k in r.events && r.events[k].publishedAt.None? &&
            !(k.kind.Ingestion? && Unfinished(r, k.job))
  }

  predicate Useful(r: Rows, env: Envelope) { Authentic(r, env) && Unfinished(r, env.job) }

  function Useless(s: State): set<Id> { set m | m in s.stream && !Useful(s.rows, s.stream[m]) }

  function Slack(s: State): nat { 2 * |Idle(s.rows)| + |Useless(s)| }

  lemma {:induction false} SmallerSet<T>(a: set<T>, b: set<T>)
    requires a <= b
    ensures |a| <= |b| && (a != b ==> |a| < |b|)
  {
    if a != {} {
      var x :| x in a;
      SmallerSet(a - {x}, b - {x});
      assert a == b <==> a - {x} == b - {x};
    }
  }

  // ----- publishing -----

  /** Publishing a head touches no identity and no job. */
  predicate SameIdentities(r: Rows, r': Rows) {
    r'.jobs == r.jobs && r'.events.Keys == r.events.Keys &&
    forall k | k in r.events ::
      r'.events[k].id == r.events[k].id && r'.events[k].createdAt == r.events[k].createdAt
  }

  lemma SameUseful(r: Rows, r': Rows)
    requires SameIdentities(r, r')
    ensures forall env :: Useful(r', env) <==> Useful(r, env)
  {
    forall env ensures Useful(r', env) <==> Useful(r, env) {
      assert Authentic(r', env) <==> Authentic(r, env);
    }
  }

  /** Reconciling leaves idle events and all identities alone. */
  lemma PreparedIdle(c: Config, p: Process, pause: Time)
    ensures var t := PreparedRows(c, p, pause);
      SameIdentities(p.state.rows, t) && Idle(t) == Idle(p.state.rows)
  {
    var r, t := p.state.rows, PreparedRows(c, p, pause);
    forall k ensures k in Idle(t) <==> k in Idle(r) {}
  }

  lemma PublishOne(c: Config, s: State, h: EventKey)
    requires Inv(c, s) && IsHead(s.rows, h)
    ensures var t := PublishHeadOf(c, s, h);
      && t.rows == s.rows.(events := s.rows.events[h := AsPublished(s.rows, h)])
      && t.stream == (if h.kind.Dead? then s.stream else
           s.stream[s.nextId + 2 := EnvelopeFor(s.rows.events[h], h.job, s.rows.jobs[h.job])])
  {
    PublishSteps(c, s, h);
  }

  /** A published head uses up idle work, or puts a fresh useful delivery into the stream. */
  lemma PublishedHead(s: State, t: State, h: EventKey, id: Id)
    requires Due(s.rows, h) && (forall m | m in s.stream :: m < id)
    requires t.rows == s.rows.(events := s.rows.events[h := AsPublished(s.rows, h)])
    requires t.stream == if h.kind.Dead? then s.stream else
      s.stream[id := EnvelopeFor(s.rows.events[h], h.job, s.rows.jobs[h.job])]
    ensures SameIdentities(s.rows, t.rows)
    ensures Slack(t) < Slack(s) || (Slack(t) == Slack(s) && id in t.stream)
  {
    SameUseful(s.rows, t.rows);
    if h.kind.Ingestion? && Unfinished(s.rows, h.job) {
      assert Idle(t.rows) == Idle(s.rows);
      assert Authentic(t.rows, t.stream[id]);
      assert Useless(t) == Useless(s);
    } else {
      assert Idle(t.rows) == Idle(s.rows) - {h};
      assert h in Idle(s.rows);
      assert Useless(t) <= Useless(s) + {id};
      SmallerSet(Useless(t), Useless(s) + {id});
    }
  }

  /** One of the two moves: less slack, or a fresh delivery. */
  ghost predicate Moves(s: State, t: State) {
    && t.nextId >= s.nextId && t.rows.now == s.rows.now && SameIdentities(s.rows, t.rows)
    && (Slack(t) < Slack(s) ||
        (Slack(t) == Slack(s) && exists m :: m in t.stream && s.nextId <= m))
  }

  lemma PublishHeadMoves(c: Config, s: State, h: EventKey)
    requires Inv(c, s) && IsHead(s.rows, h)
    ensures Moves(s, PublishHeadOf(c, s, h))
  {
    PublishOne(c, s, h);
    PublishSafe(c, s, h);
    PublishedHead(s, PublishHeadOf(c, s, h), h, s.nextId + 2);
  }

  lemma PublishedKey(c: Config, s: State) returns (h: EventKey)
    requires exists k :: IsHead(s.rows, k)
    ensures IsHead(s.rows, h) && Publish(c, s) == PublishHeadOf(c, s, h)
  {
    h :| IsHead(s.rows, h) && Publish(c, s) == PublishHeadOf(c, s, h);
  }

  lemma PublishSafe(c: Config, s: State, h: EventKey)
    requires Inv(c, s)
    ensures var t := PublishHeadOf(c, s, h);
      Inv(c, t) && t.nextId >= s.nextId && (Timely(c, s.rows) ==> Timely(c, t.rows))
  {
    var s1 := Do(c, s, Select(h));
    DoInv(c, s, Select(h));
    DoInv(c, s1, Xadd(s.nextId));
    DoInv(c, Do(c, s1, Xadd(s.nextId)), MarkDone(s.nextId));
  }

  // ----- taking a delivery -----

  /** A step that starts no attempt: jobs keep or raise their attempt, and stay finished. */
  predicate NoNewWork(r: Rows, r': Rows) {
    forall j | j in r'.jobs ::
      j in r.jobs && r.jobs[j].attempt <= r'.jobs[j].attempt &&
      (Terminal(r.jobs[j]) ==> Terminal(r'.jobs[j]))
  }

  lemma LeftShrinks(c: Config, r: Rows, r': Rows)
    requires NoNewWork(r, r')
    ensures Left(c, r') <= Left(c, r) && |Left(c, r')| <= |Left(c, r)|
  {
    SmallerSet(Left(c, r'), Left(c, r));
  }

  predicate Finishing(l: Label) {
    l == Tick(0) || l.Persist? || l.RecordFailure? || l.Decide? || l.Ack? || l.WorkerCrash?
  }

  lemma FinishingStep(c: Config, s: State, l: Label)
    requires Inv(c, s) && Finishing(l)
    ensures Inv(c, Do(c, s, l)) && NoNewWork(s.rows, Do(c, s, l).rows)
  {
    DoInv(c, s, l);
    if Enabled(c, s, l) {
      if l.Persist? {
        PersistNoNewWork(c, s, l.worker, l.world, l.delay);
      }
    }
  }

  lemma PersistNoNewWork(c: Config, s: State, w: Id, world: World, delay: Time)
    requires Enabled(c, s, Persist(w, world, delay))
    ensures NoNewWork(s.rows, Next(c, s, Persist(w, world, delay)).rows)
  {
    var claim := s.workers[w].claim;
    match Examine(claim, world) {
      case Built(build) =>
      case Broken(code, state, transient) =>
    }
  }

  lemma FinishingSteps(c: Config, s: State, w: Id, l: Label)
    requires Inv(c, s) && Finishing(l)
    ensures var t := Do(c, Do(c, Do(c, Do(c, s, l), RecordFailure(w)), Decide(w)), Ack(w));
      Inv(c, t) && |Left(c, t.rows)| <= |Left(c, s.rows)|
  {
    var s1 := Do(c, s, l);
    var s2 := Do(c, s1, RecordFailure(w));
    var s3 := Do(c, s2, Decide(w));
    FinishingStep(c, s, l);
    FinishingStep(c, s1, RecordFailure(w));
    FinishingStep(c, s2, Decide(w));
    FinishingStep(c, s3, Ack(w));
    LeftShrinks(c, s.rows, s1.rows);
    LeftShrinks(c, s1.rows, s2.rows);
    LeftShrinks(c, s2.rows, s3.rows);
    LeftShrinks(c, s3.rows, Do(c, s3, Ack(w)).rows);
  }

  /** Claiming a useful delivery of due work uses up at least one of the attempts left. */
  lemma ClaimedUseful(c: Config, s: State, m: Id)
    requires c.Valid() && Inv(c, s) && m in s.stream && Useful(s.rows, s.stream[m])
    requires JobDue(s.rows, s.stream[m].job)
    ensures Inv(c, Claimed(c, s, m)) && |Left(c, Claimed(c, s, m).rows)| < |Left(c, s.rows)|
  {
    var j := s.stream[m].job;
    Deliver(c, s, j, m);
    var t := Claimed(c, s, m);
    var s1 := Next(c, s, Receive(m));
    assert t == Next(c, s1, TryClaim(s.nextId));
    ClaimUsesUp(c, s.rows, s.stream[m], s1.nextId);
  }

  lemma ClaimUsesUp(c: Config, r: Rows, env: Envelope, dead: Id)
    requires c.Valid() && RowsInv(c, r) && Useful(r, env) && JobDue(r, env.job)
    ensures |Left(c, ClaimTx(c, r, env, dead).0)| < |Left(c, r)|
  {
    var j := env.job;
    var r' := ClaimTx(c, r, env, dead).0;
    ClaimProgress(c, r, j, env, dead);
    assert Lifecycle(c, r, j);
    assert (j, r.jobs[j].attempt) in Left(c, r) && (j, r.jobs[j].attempt) !in Left(c, r');
    assert NoNewWork(r, r');
    LeftShrinks(c, r, r');
    SmallerSet(Left(c, r'), Left(c, r));
  }

  lemma ConsumeUseful(c: Config, s: State, m: Id, fates: AllFates)
    requires c.Valid() && Inv(c, s) && m in s.stream && Useful(s.rows, s.stream[m])
    requires JobDue(s.rows, s.stream[m].job)
    ensures |Left(c, Consume(c, s, m, fates).rows)| < |Left(c, s.rows)|
  {
    ClaimedUseful(c, s, m);
    FinishingSteps(c, Claimed(c, s, m), s.nextId, Befalls(Claimed(c, s, m), s.nextId, fates));
  }

  /** Claiming a useless delivery is refused, and only its acknowledgement is left to do. */
  predicate ToAcknowledge(s: State, w: Id, m: Id) {
    w in s.workers &&
    (s.workers[w] == Acking(m) ||
     (s.workers[w].Deciding? && s.workers[w].msg == m && Acknowledgeable(s.rows, s.workers[w].job)))
  }

  lemma ClaimedUseless(c: Config, s: State, m: Id)
    requires Inv(c, s) && m in s.stream && !Useful(s.rows, s.stream[m])
    ensures var t := Claimed(c, s, m);
      t.rows == s.rows && t.stream == s.stream && ToAcknowledge(t, s.nextId, m)
  {
    var s1 := Next(c, s, Receive(m));
    assert Claimed(c, s, m) == Next(c, s1, TryClaim(s.nextId));
  }

  lemma Acknowledges(c: Config, s: State, w: Id, m: Id)
    requires ToAcknowledge(s, w, m)
    ensures var t := Do(c, Do(c, Do(c, s, RecordFailure(w)), Decide(w)), Ack(w));
      t.rows == s.rows && t.stream == s.stream - {m}
  {
    assert Do(c, s, RecordFailure(w)) == s;
  }

  /** A useless delivery changes no row and is gone. */
  lemma ConsumeUseless(c: Config, s: State, m: Id, fates: AllFates)
    requires Inv(c, s) && m in s.stream && !Useful(s.rows, s.stream[m])
    ensures var t := Consume(c, s, m, fates);
      t.rows == s.rows && t.stream == s.stream - {m}
  {
    ClaimedUseless(c, s, m);
    var t := Claimed(c, s, m);
    assert Befalls(t, s.nextId, fates) == Tick(0);
    assert Do(c, t, Tick(0)) == t;
    Acknowledges(c, t, s.nextId, m);
  }

  /** Work that is not due yet is refused too; its delivery is acknowledged or stays. */
  lemma ConsumeBusy(c: Config, s: State, m: Id, fates: AllFates)
    requires Inv(c, s) && m in s.stream && Useful(s.rows, s.stream[m])
    requires !JobDue(s.rows, s.stream[m].job)
    ensures var t := Consume(c, s, m, fates);
      t.rows == s.rows && (t.stream == s.stream || t.stream == s.stream - {m})
  {
    var w := s.nextId;
    assert Lifecycle(c, s.rows, s.stream[m].job);
    ClaimedBusy(c, s, m);
    var t := Claimed(c, s, m);
    assert Befalls(t, w, fates) == Tick(0);
    assert Do(c, t, Tick(0)) == t;
    Decides(c, t, w, m);
  }

  lemma ClaimedBusy(c: Config, s: State, m: Id)
    requires m in s.stream && Useful(s.rows, s.stream[m]) && Busy(s.rows, s.rows.jobs[s.stream[m].job])
    ensures var t := Claimed(c, s, m);
      t.rows == s.rows && t.stream == s.stream && s.nextId in t.workers &&
      t.workers[s.nextId] == Deciding(m, s.stream[m].job)
  {
    var s1 := Next(c, s, Receive(m));
    assert Claimed(c, s, m) == Next(c, s1, TryClaim(s.nextId));
  }

  lemma Decides(c: Config, s: State, w: Id, m: Id)
    requires w in s.workers && s.workers[w].Deciding? && s.workers[w].msg == m
    ensures var t := Do(c, Do(c, Do(c, s, RecordFailure(w)), Decide(w)), Ack(w));
      t.rows == s.rows && (t.stream == s.stream || t.stream == s.stream - {m})
  {
    assert Do(c, s, RecordFailure(w)) == s;
    if Acknowledgeable(s.rows, s.workers[w].job) { Acknowledges(c, s, w, m); }
  }

  lemma ConsumeSafe(c: Config, s: State, m: Id, fates: AllFates)
    requires Inv(c, s) && Timely(c, s.rows)
    ensures var t := Consume(c, s, m, fates);
      Inv(c, t) && Timely(c, t.rows) && s.nextId <= t.nextId && s.rows.now <= t.rows.now
  {
    var w := s.nextId;
    var s1 := Do(c, s, Receive(m));
    var s2 := Do(c, s1, TryClaim(w));
    var s3 := Do(c, s2, Befalls(s2, w, fates));
    var s4 := Do(c, s3, RecordFailure(w));
    DoInv(c, s, Receive(m));
    DoInv(c, s1, TryClaim(w));
    DoInv(c, s2, Befalls(s2, w, fates));
    DoInv(c, s3, RecordFailure(w));
    DoInv(c, s4, Decide(w));
    DoInv(c, Do(c, s4, Decide(w)), Ack(w));
  }

  // ----- one tick -----

  /** Lexicographically less. */
  predicate Less(c: Config, t: State, s: State) {
    |Left(c, t.rows)| < |Left(c, s.rows)| ||
    (Left(c, t.rows) == Left(c, s.rows) && Slack(t) < Slack(s))
  }

  /** Nothing but publications: no job has changed, and the measure is the same. */
  predicate Still(c: Config, t: State, s: State) {
    t.rows.jobs == s.rows.jobs && Left(c, t.rows) == Left(c, s.rows) && Slack(t) == Slack(s)
  }

  /** Due events may have been published, and no event has changed otherwise. */
  predicate OnlyPublished(r: Rows, r': Rows) {
    r'.events.Keys == r.events.Keys &&
    forall k | k in r.events ::
      r'.events[k] == r.events[k] || (Due(r, k) && r'.events[k] == AsPublished(r, k))
  }

  lemma SameLeft(c: Config, r: Rows, r': Rows)
    requires r'.jobs == r.jobs
    ensures Left(c, r') == Left(c, r)
  {
  }

  lemma SameSlack(s: State, t: State)
    requires SameIdentities(s.rows, t.rows) && Idle(t.rows) == Idle(s.rows) && t.stream == s.stream
    ensures Slack(t) == Slack(s)
  {
    SameUseful(s.rows, t.rows);
    assert Useless(t) == Useless(s);
  }

  lemma PreparedStill(c: Config, p: Process, pause: Time)
    requires Sound(c, p)
    ensures var t := Prepared(c, p, pause);
      Still(c, t, p.state) && t.nextId == p.state.nextId && t.stream == p.state.stream
  {
    var t := Prepared(c, p, pause);
    PreparedSafe(c, p, pause);
    PreparedIdle(c, p, pause);
    SameSlack(p.state, t);
    SameLeft(c, p.state.rows, t.rows);
  }

  /** Publishing lowers the slack, or puts a fresh delivery into the stream, or finds nothing due. */
  lemma PublishEffect(c: Config, s: State)
    requires Inv(c, s)
    ensures var t := Publish(c, s);
      && Inv(c, t) && (Timely(c, s.rows) ==> Timely(c, t.rows)) && OnlyPublished(s.rows, t.rows)
      && (Moves(s, t) || (t == s && forall k :: !IsHead(s.rows, k)))
  {
    if exists k :: IsHead(s.rows, k) {
      var h := PublishedKey(c, s);
      PublishOne(c, s, h);
      PublishSafe(c, s, h);
      PublishHeadMoves(c, s, h);
    }
  }

  /** Taking a delivery lowers the measure, unless it is of work that is not due yet. */
  lemma TakingEffect(c: Config, s: State, taken: Option<Id>, fates: AllFates)
    requires c.Valid() && Inv(c, s) && (taken.Some? ==> taken.value in s.stream)
    ensures var t := AfterTaking(c, s, taken, fates);
      Less(c, t, s) ||
      (t.rows == s.rows && Still(c, t, s) &&
       (taken.None? || (Useful(s.rows, s.stream[taken.value]) &&
                        !JobDue(s.rows, s.stream[taken.value].job))))
  {
    if taken.Some? {
      var m := taken.value;
      var t := Consume(c, s, m, fates);
      if !Useful(s.rows, s.stream[m]) {
        ConsumeUseless(c, s, m, fates);
        assert m in Useless(s) && Useless(t) == Useless(s) - {m};
      } else if JobDue(s.rows, s.stream[m].job) {
        ConsumeUseful(c, s, m, fates);
      } else {
        ConsumeBusy(c, s, m, fates);
        assert Useless(t) == Useless(s);
      }
    }
  }

  lemma LessThenStill(c: Config, s: State, t: State, u: State)
    requires (Less(c, t, s) && (Still(c, u, t) || Less(c, u, t))) || (Still(c, t, s) && Less(c, u, t))
    ensures Less(c, u, s)
  {
  }

  lemma MovesStill(c: Config, s: State, t: State)
    requires Moves(s, t)
    ensures Less(c, t, s) || Still(c, t, s)
  {
    SameLeft(c, s.rows, t.rows);
  }

  /** A tick lowers the measure or leaves it, and every job, as they are. */
  lemma TickEffect(c: Config, p: Process, pause: Time, next: Id, taken: Option<Id>, fates: AllFates)
    requires c.Valid() && Sound(c, p) && Takes(c, p, BeforeTaking(c, p, pause), taken)
    ensures var u := TickOf(c, p, pause, next, taken, fates).state;
      Less(c, u, p.state) ||
      (Still(c, u, p.state) && u.rows.now == p.state.rows.now + pause &&
       OnlyPublished(PreparedRows(c, p, pause), u.rows))
  {
    var s, t := Prepared(c, p, pause), BeforeTaking(c, p, pause);
    PreparedSafe(c, p, pause);
    PreparedStill(c, p, pause);
    PublishEffect(c, s);
    TakingEffect(c, t, taken, fates);
    var u := AfterTaking(c, t, taken, fates);
    assert Less(c, t, s) || Still(c, t, s) by {
      if t != s { MovesStill(c, s, t); }
    }
    if Less(c, t, s) {
      LessThenStill(c, p.state, s, t);
      LessThenStill(c, p.state, t, u);
    } else if Less(c, u, t) {
      LessThenStill(c, s, t, u);
      LessThenStill(c, p.state, s, u);
    }
  }

  /** Once all unfinished jobs are due, and an event of one of them is, a tick lowers the measure. */
  lemma RipeTick(c: Config, p: Process, pause: Time, next: Id, taken: Option<Id>, fates: AllFates, j: Id)
    requires c.Valid() && Sound(c, p) && Takes(c, p, BeforeTaking(c, p, pause), taken)
    requires var r := PreparedRows(c, p, pause);
      Due(r, EventKey(j, Ingestion)) && forall i | Unfinished(r, i) :: JobDue(r, i)
    ensures Less(c, TickOf(c, p, pause, next, taken, fates).state, p.state)
  {
    var s, t := Prepared(c, p, pause), BeforeTaking(c, p, pause);
    PreparedSafe(c, p, pause);
    PreparedStill(c, p, pause);
    HeadExists(s.rows, EventKey(j, Ingestion));
    PublishEffect(c, s);
    RipeTaking(c, p, s, t, taken, fates);
    LessThenStill(c, p.state, s, AfterTaking(c, t, taken, fates));
  }

  lemma RipeTaking(c: Config, p: Process, s: State, t: State, taken: Option<Id>, fates: AllFates)
    requires c.Valid() && Inv(c, t) && Moves(s, t) && Takes(c, p, t, taken)
    requires (forall m | m in p.held :: m < s.nextId) && forall i | Unfinished(s.rows, i) :: JobDue(s.rows, i)
    ensures Less(c, AfterTaking(c, t, taken, fates), s)
  {
    TakingEffect(c, t, taken, fates);
    MovesStill(c, s, t);
    var u := AfterTaking(c, t, taken, fates);
    if Slack(t) == Slack(s) {
      var m :| m in t.stream && s.nextId <= m;
      assert Fresh(p, t, m);
      assert Unfinished(t.rows, t.stream[taken.value].job) ==> Unfinished(s.rows, t.stream[taken.value].job);
      LessThenStill(c, s, t, u);
    } else {
      LessThenStill(c, s, t, u);
    }
  }

  lemma TickedSound(c: Config, p: Process, u: State, pause: Time, next: Id, taken: Option<Id>,
                    died: bool)
    requires Sound(c, p) && Inv(c, u) && Timely(c, u.rows) && p.state.nextId <= u.nextId
    requires p.state.rows.now + pause <= u.rows.now && (taken.Some? ==> taken.value < u.nextId)
    ensures Sound(c, Ticked(c, p, u, pause, next, taken, died))
  {
  }

  lemma TakenSafe(c: Config, t: State, taken: Option<Id>, fates: AllFates)
    requires Inv(c, t) && Timely(c, t.rows) && (taken.Some? ==> taken.value in t.stream)
    ensures var u := AfterTaking(c, t, taken, fates);
      && Inv(c, u) && Timely(c, u.rows) && t.nextId <= u.nextId && t.rows.now <= u.rows.now
      && (taken.Some? ==> taken.value < t.nextId)
  {
    if taken.Some? { ConsumeSafe(c, t, taken.value, fates); }
  }

  lemma BeforeSafe(c: Config, p: Process, pause: Time)
    requires Sound(c, p)
    ensures var t := BeforeTaking(c, p, pause);
      && Inv(c, t) && Timely(c, t.rows) && p.state.nextId <= t.nextId
      && t.rows.now == p.state.rows.now + pause
  {
    PreparedSafe(c, p, pause);
    PublishEffect(c, Prepared(c, p, pause));
  }

  lemma TickSound(c: Config, p: Process, pause: Time, next: Id, taken: Option<Id>, fates: AllFates)
    requires Sound(c, p) && Takes(c, p, BeforeTaking(c, p, pause), taken)
    ensures Sound(c, TickOf(c, p, pause, next, taken, fates))
    ensures p.state.rows.now <= TickOf(c, p, pause, next, taken, fates).state.rows.now
  {
    BeforeSafe(c, p, pause);
    var t := BeforeTaking(c, p, pause);
    TakenSafe(c, t, taken, fates);
    TickedSound(c, p, AfterTaking(c, t, taken, fates), pause, next, taken, Dies(c, t, taken, fates));
  }

  // ----- while nothing but time passes -----

  /** The latest time that matters of what is outstanding now. */
  function Horizon(c: Config, r: Rows): Time { r.now + c.lease + RETRY_CAP + PUBLISH_LEASE }

  predicate EventBound(r: Rows, e: EventKey, bound: Time) {
    e in r.events &&
    var event := r.events[e];
    if event.publishedAt.Some? then event.publishedAt.value <= bound
    else event.availableAt <= bound &&
         (event.publishLease.Some? ==> event.publishLease.value <= bound)
  }

  /** From process o to a later q the measure has not changed, and one event is not put off. */
  ghost predicate Quiet(c: Config, o: Process, q: Process, e: EventKey) {
    var bound := Horizon(c, o.state.rows);
    Still(c, q.state, o.state) && o.state.rows.now <= q.state.rows.now &&
    EventBound(q.state.rows, e, bound) &&
    (q.reconciled.Some? ==> q.reconciled.value <= bound + c.reconcile)
  }

  lemma QuietStart(c: Config, o: Process, j: Id)
    requires Sound(c, o) && Unfinished(o.state.rows, j)
    ensures Quiet(c, o, o, EventKey(j, Ingestion))
  {
    assert JobRefs(o.state.rows, j);
    assert EventTimely(o.state.rows, EventKey(j, Ingestion));
  }

  /** Long enough after o all the jobs unfinished then are due. */
  lemma QuietJobsDue(c: Config, o: Rows, r: Rows)
    requires RowsInv(c, o) && Timely(c, o) && r.jobs == o.jobs && o.now + c.lease + RETRY_CAP <= r.now
    ensures forall i | Unfinished(r, i) :: JobDue(r, i)
  {
    forall i | Unfinished(r, i) ensures JobDue(r, i) {
      assert JobTimely(c, o, i) && Lifecycle(c, o, i);
    }
  }

  /** Reconciling late enough makes a bounded event due. */
  lemma BoundedDue(c: Config, r: Rows, e: EventKey, bound: Time)
    requires EventBound(r, e, bound) && bound + c.reconcile <= r.now
    requires e.kind.Ingestion? && JobDue(r, e.job)
    ensures Due(ReconcileTx(r, c.reconcile), e)
  {
  }

  /** An event that is not due after preparing was not touched by it. */
  lemma PreparedUntouched(c: Config, p: Process, pause: Time, e: EventKey)
    requires e in p.state.rows.events && !Due(PreparedRows(c, p, pause), e)
    ensures PreparedRows(c, p, pause).events[e] == p.state.rows.events[e]
  {
  }

  lemma EarlyEvent(c: Config, p: Process, pause: Time, e: EventKey, bound: Time, u: Rows)
    requires EventBound(p.state.rows, e, bound) && p.state.rows.now + pause <= bound
    requires OnlyPublished(PreparedRows(c, p, pause), u)
    ensures EventBound(u, e, bound)
  {
  }

  /** Late in the quiet time a tick lowers the measure, or does not even reconcile any more. */
  lemma QuietLate(c: Config, o: Process, q: Process, pause: Time, e: EventKey)
    requires Sound(c, o) && Quiet(c, o, q, e) && e.kind.Ingestion? && Unfinished(o.state.rows, e.job)
    requires var r := PreparedRows(c, q, pause);
      o.state.rows.now + c.lease + RETRY_CAP <= r.now && !Due(r, e)
    ensures var r := PreparedRows(c, q, pause);
      && r.events[e] == q.state.rows.events[e]
      && (ReconcileDue(c, q, r.now) ==> r.now <= Horizon(c, o.state.rows) + c.reconcile)
  {
    var later, bound := Later(q.state.rows, pause), Horizon(c, o.state.rows);
    PreparedUntouched(c, q, pause, e);
    if ReconcileDue(c, q, later.now) && bound + c.reconcile <= later.now {
      QuietJobsDue(c, o.state.rows, later);
      BoundedDue(c, later, e, bound);
    }
  }

  lemma TickedReconciled(c: Config, q: Process, s: State, pause: Time, next: Id, taken: Option<Id>,
                         died: bool)
    ensures var (u, now) := (Ticked(c, q, s, pause, next, taken, died).reconciled,
                             q.state.rows.now + pause);
      u.None? || u == q.reconciled || (u == Some(now) && ReconcileDue(c, q, now))
  {
  }

  lemma QuietStep(c: Config, o: Process, q: Process, pause: Time, next: Id, taken: Option<Id>,
                  fates: AllFates, j: Id)
    requires c.Valid() && Sound(c, o) && Sound(c, q) && Unfinished(o.state.rows, j)
    requires Takes(c, q, BeforeTaking(c, q, pause), taken) && Quiet(c, o, q, EventKey(j, Ingestion))
    ensures var u := TickOf(c, q, pause, next, taken, fates);
      Less(c, u.state, q.state) || Quiet(c, o, u, EventKey(j, Ingestion))
  {
    var e, u := EventKey(j, Ingestion), TickOf(c, q, pause, next, taken, fates);
    var r := PreparedRows(c, q, pause);
    TickEffect(c, q, pause, next, taken, fates);
    if !Less(c, u.state, q.state) {
      var t := BeforeTaking(c, q, pause);
      TickedReconciled(c, q, AfterTaking(c, t, taken, fates), pause, next, taken,
                       Dies(c, t, taken, fates));
      if o.state.rows.now + c.lease + RETRY_CAP <= r.now {
        QuietJobsDue(c, o.state.rows, r);
        if Due(r, e) { RipeTick(c, q, pause, next, taken, fates, j); }
        QuietLate(c, o, q, pause, e);
      } else {
        EarlyEvent(c, q, pause, e, Horizon(c, o.state.rows), u.state.rows);
      }
      StillQuiet(c, o, q, u, pause, e);
    }
  }

  lemma StillQuiet(c: Config, o: Process, q: Process, u: Process, pause: Time, e: EventKey)
    requires Quiet(c, o, q, e) && Still(c, u.state, q.state)
    requires u.state.rows.now == q.state.rows.now + pause
    requires EventBound(u.state.rows, e, Horizon(c, o.state.rows))
    requires u.reconciled.None? || u.reconciled == q.reconciled ||
             u.reconciled.value <= Horizon(c, o.state.rows) + c.reconcile
    ensures Quiet(c, o, u, e)
  {
  }

  /** It cannot go on for longer than the configured times. */
  lemma QuietEnd(c: Config, o: Process, q: Process, pause: Time, next: Id, taken: Option<Id>,
                 fates: AllFates, j: Id)
    requires c.Valid() && Sound(c, o) && Sound(c, q) && Unfinished(o.state.rows, j)
    requires Takes(c, q, BeforeTaking(c, q, pause), taken) && Quiet(c, o, q, EventKey(j, Ingestion))
    requires Horizon(c, o.state.rows) + 2 * c.reconcile <= q.state.rows.now
    ensures Less(c, TickOf(c, q, pause, next, taken, fates).state, q.state)
  {
    var e, later := EventKey(j, Ingestion), Later(q.state.rows, pause);
    QuietJobsDue(c, o.state.rows, later);
    BoundedDue(c, later, e, Horizon(c, o.state.rows));
    QuietJobsDue(c, o.state.rows, PreparedRows(c, q, pause));
    RipeTick(c, q, pause, next, taken, fates, j);
  }

  // ----- any number of ticks -----

  /** What the n-th tick meets: the pause before it, and where reclaiming goes on after it. */
  datatype Input = Input(pause: Time, next: Id)

  ghost predicate TickAt(c: Config, processes: nat -> Process, inputs: nat -> Input,
                         takes: nat -> Option<Id>, fates: AllFates, n: nat) {
    && Takes(c, processes(n), BeforeTaking(c, processes(n), inputs(n).pause), takes(n))
    && processes(n + 1) == TickOf(c, processes(n), inputs(n).pause, inputs(n).next, takes(n), fates)
  }

  /** processes(n) is the process after n ticks, and time goes on. */
  ghost predicate Ticking(c: Config, processes: nat -> Process, inputs: nat -> Input,
                          takes: nat -> Option<Id>, fates: AllFates) {
    (forall n: nat :: TickAt(c, processes, inputs, takes, fates, n)) &&
    forall t: Time :: Reaches(processes, t)
  }

  ghost predicate Reaches(processes: nat -> Process, t: Time) {
    exists n: nat :: t <= processes(n).state.rows.now
  }

  ghost predicate AllDone(r: Rows) { forall j | j in r.jobs :: Terminal(r.jobs[j]) }

  lemma SoundNext(c: Config, processes: nat -> Process, inputs: nat -> Input,
                  takes: nat -> Option<Id>, fates: AllFates, n: nat)
    requires Ticking(c, processes, inputs, takes, fates) && Sound(c, processes(n))
    ensures Sound(c, processes(n + 1))
    ensures processes(n).state.rows.now <= processes(n + 1).state.rows.now
  {
    assert TickAt(c, processes, inputs, takes, fates, n);
    TickSound(c, processes(n), inputs(n).pause, inputs(n).next, takes(n), fates);
  }

  lemma {:induction false} SoundAt(c: Config, processes: nat -> Process, inputs: nat -> Input,
                                   takes: nat -> Option<Id>, fates: AllFates, n: nat, m: nat)
    requires Ticking(c, processes, inputs, takes, fates) && Sound(c, processes(n)) && n <= m
    ensures Sound(c, processes(m)) && processes(n).state.rows.now <= processes(m).state.rows.now
    decreases m - n
  {
    if n < m {
      SoundNext(c, processes, inputs, takes, fates, n);
      SoundAt(c, processes, inputs, takes, fates, n + 1, m);
    }
  }

  lemma QuietNext(c: Config, processes: nat -> Process, inputs: nat -> Input,
                  takes: nat -> Option<Id>, fates: AllFates, n: nat, k: nat, j: Id)
    requires c.Valid() && Ticking(c, processes, inputs, takes, fates)
    requires Sound(c, processes(n)) && Sound(c, processes(k)) && Unfinished(processes(n).state.rows, j)
    requires Quiet(c, processes(n), processes(k), EventKey(j, Ingestion))
    ensures Sound(c, processes(k + 1))
    ensures Less(c, processes(k + 1).state, processes(n).state) ||
            (Quiet(c, processes(n), processes(k + 1), EventKey(j, Ingestion)) &&
             processes(k).state.rows.now < Horizon(c, processes(n).state.rows) + 2 * c.reconcile)
  {
    var o, q, u := processes(n), processes(k), processes(k + 1);
    assert TickAt(c, processes, inputs, takes, fates, k);
    if Horizon(c, o.state.rows) + 2 * c.reconcile <= q.state.rows.now {
      QuietEnd(c, o, q, inputs(k).pause, inputs(k).next, takes(k), fates, j);
    } else {
      QuietStep(c, o, q, inputs(k).pause, inputs(k).next, takes(k), fates, j);
    }
    if Less(c, u.state, q.state) { LessThenStill(c, o.state, q.state, u.state); }
    SoundNext(c, processes, inputs, takes, fates, k);
  }

  /** What goes on quietly step by step, until `end` at the latest, comes to an end. */
  lemma {:induction false} QuietEnds(quiet: nat -> bool, less: nat -> bool, k: nat, end: nat)
      returns (m: nat)
    requires quiet(k) && k <= end
    requires forall i: nat | quiet(i) :: less(i + 1) || (quiet(i + 1) && i != end)
    ensures k < m && less(m)
    decreases end - k
  {
    if less(k + 1) { return k + 1; }
    m := QuietEnds(quiet, less, k + 1, end);
  }

  ghost predicate QuietAt(c: Config, processes: nat -> Process, n: nat, j: Id, i: nat) {
    Sound(c, processes(i)) && Quiet(c, processes(n), processes(i), EventKey(j, Ingestion))
  }

  ghost predicate LessAt(c: Config, processes: nat -> Process, n: nat, i: nat) {
    Less(c, processes(i).state, processes(n).state)
  }

  lemma QuietGoesOn(c: Config, processes: nat -> Process, inputs: nat -> Input,
                    takes: nat -> Option<Id>, fates: AllFates, n: nat, end: nat, j: Id)
    requires c.Valid() && Ticking(c, processes, inputs, takes, fates) && Sound(c, processes(n))
    requires Unfinished(processes(n).state.rows, j) && n <= end
    requires Horizon(c, processes(n).state.rows) + 2 * c.reconcile <= processes(end).state.rows.now
    ensures forall i: nat | QuietAt(c, processes, n, j, i) ::
      LessAt(c, processes, n, i + 1) || (QuietAt(c, processes, n, j, i + 1) && i != end)
  {
    forall i: nat | QuietAt(c, processes, n, j, i)
      ensures LessAt(c, processes, n, i + 1) || (QuietAt(c, processes, n, j, i + 1) && i != end)
    {
      QuietNext(c, processes, inputs, takes, fates, n, i, j);
    }
  }

  /** The same for the ticks after tick n: quiet ones are followed by a fall. */
  lemma QuietFalls(c: Config, processes: nat -> Process, n: nat, end: nat, j: Id) returns (m: nat)
    requires QuietAt(c, processes, n, j, n) && n <= end
    requires forall i: nat | QuietAt(c, processes, n, j, i) ::
      LessAt(c, processes, n, i + 1) || (QuietAt(c, processes, n, j, i + 1) && i != end)
    ensures n < m && LessAt(c, processes, n, m)
  {
    m := QuietEnds((i: nat) => QuietAt(c, processes, n, j, i), (i: nat) => LessAt(c, processes, n, i),
                   n, end);
  }

  /** While some job is unfinished, the measure falls below what it is at tick n. */
  lemma FallsBy(c: Config, processes: nat -> Process, inputs: nat -> Input,
                takes: nat -> Option<Id>, fates: AllFates, n: nat, end: nat, j: Id) returns (m: nat)
    requires c.Valid() && Ticking(c, processes, inputs, takes, fates) && Sound(c, processes(n))
    requires Unfinished(processes(n).state.rows, j) && n <= end
    requires Horizon(c, processes(n).state.rows) + 2 * c.reconcile <= processes(end).state.rows.now
    ensures n < m && LessAt(c, processes, n, m)
  {
    QuietStart(c, processes(n), j);
    QuietGoesOn(c, processes, inputs, takes, fates, n, end, j);
    m := QuietFalls(c, processes, n, end, j);
  }

  lemma {:induction false} TicksFinish(c: Config, processes: nat -> Process, inputs: nat -> Input,
                                       takes: nat -> Option<Id>, fates: AllFates, n: nat)
      returns (m: nat)
    requires c.Valid() && Ticking(c, processes, inputs, takes, fates)
    requires Sound(c, processes(0)) && Sound(c, processes(n))
    ensures n <= m && AllDone(processes(m).state.rows)
    decreases |Left(c, processes(n).state.rows)|, Slack(processes(n).state)
  {
    var r := processes(n).state.rows;
    if AllDone(r) { return n; }
    var j :| j in r.jobs && !Terminal(r.jobs[j]);
    var k := FallsFrom(c, processes, inputs, takes, fates, n, j);
    SoundAt(c, processes, inputs, takes, fates, n, k);
    m := TicksFinish(c, processes, inputs, takes, fates, k);
  }

  lemma FallsFrom(c: Config, processes: nat -> Process, inputs: nat -> Input,
                  takes: nat -> Option<Id>, fates: AllFates, n: nat, j: Id) returns (m: nat)
    requires c.Valid() && Ticking(c, processes, inputs, takes, fates)
    requires Sound(c, processes(0)) && Sound(c, processes(n))
    requires Unfinished(processes(n).state.rows, j)
    ensures n < m && Less(c, processes(m).state, processes(n).state)
  {
    var target := Horizon(c, processes(n).state.rows) + 2 * c.reconcile;
    assert Reaches(processes, target);
    var end: nat :| target <= processes(end).state.rows.now;
    if end < n {
      SoundAt(c, processes, inputs, takes, fates, 0, end);
      SoundAt(c, processes, inputs, takes, fates, end, n);
      end := n;
    }
    m := FallsBy(c, processes, inputs, takes, fates, n, end, j);
  }

  lemma {:induction false} RunTimely(c: Config, states: seq<State>, labels: seq<Label>, n: nat)
    requires IsRun(c, states, labels) && n <= |labels|
    ensures Timely(c, states[n].rows)
  {
    if n > 0 {
      RunTimely(c, states, labels, n - 1);
      assert StepAt(c, states, labels, n - 1);
      StepTimely(c, states[n - 1], labels[n - 1]);
    }
  }

  /** From every state of every run, whatever others left held or unfinished: one live worker process
      that keeps ticking, at whatever pace, brings every job to SUCCEEDED or FAILED, whatever befalls
      its attempts. */
  lemma LiveWorkerFinishes(c: Config, states: seq<State>, labels: seq<Label>, i: nat,
                           processes: nat -> Process, inputs: nat -> Input,
                           takes: nat -> Option<Id>, fates: AllFates)
    requires c.Valid() && IsRun(c, states, labels) && i <= |labels|
    requires processes(0).state == states[i]
    requires forall m :: m in processes(0).held ==> m < states[i].nextId
    requires processes(0).reconciled.Some? ==> processes(0).reconciled.value <= states[i].rows.now
    requires Ticking(c, processes, inputs, takes, fates)
    ensures exists n: nat :: AllDone(processes(n).state.rows)
  {
    InvAt(c, states, labels, i);
    RunTimely(c, states, labels, i);
    var n := TicksFinish(c, processes, inputs, takes, fates, 0);
  }

  // ----- a tick is always possible -----

  lemma {:induction false} Least(ids: set<Id>) returns (m: Id)
    requires ids != {}
    ensures m in ids && forall o :: o in ids ==> m <= o
  {
    var first :| first in ids;
    m := first;
    if ids - {first} != {} {
      var rest := Least(ids - {first});
      if rest < first { m := rest; }
    }
    assert forall o :: o in ids ==> o == first || o in ids - {first};
  }

  lemma TakesSomething(c: Config, p: Process, s: State) returns (taken: Option<Id>)
    ensures Takes(c, p, s, taken)
  {
    var again := set m | m in s.stream && Reclaimable(c, p, s, m);
    var unseen := set m | m in s.stream && Fresh(p, s, m);
    assert forall m :: Reclaimable(c, p, s, m) ==> m in again;
    assert forall m :: Fresh(p, s, m) ==> m in unseen;
    if again != {} {
      var least := Least(again);
      assert Reclaimable(c, p, s, least);
      taken := Some(least);
    } else if unseen != {} {
      var least := Least(unseen);
      assert Fresh(p, s, least);
      taken := Some(least);
    } else {
      taken := None;
    }
  }
}
