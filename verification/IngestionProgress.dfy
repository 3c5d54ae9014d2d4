/** No job is ever stranded. From every reachable state, whatever was lost or crashed before and
    whatever the outside world answers to each further attempt, the scheduler's own operations
    (waiting, reconcile, publish, consume) bring every unfinished job to SUCCEEDED or FAILED. */
module IngestionProgress {
  import opened Options
  import opened IngestionRows
  import opened IngestionSystem
  import opened IngestionInvariant
  import opened IngestionPreservation
  import opened IngestionRuns

  /** What befalls the worker that runs one attempt: the world answers, or the worker dies. */
  datatype Fate = Answers(world: World, delay: Time) | Crashes

  /** The fate of attempt n of the job under study; retry delays stay in the jitter interval. */
  type Fates = nat -> Fate

  ghost predicate Jittered(c: Config, fates: Fates) {
    forall a: nat :: a >= 1 && fates(a).Answers? ==>
      MaxDelay(c, a) <= 2 * fates(a).delay && fates(a).delay <= MaxDelay(c, a)
  }

  /** The scheduler only waits, reconciles, publishes and consumes; it does not choose the fates. */
  predicate Allowed(s: State, l: Label, j: Id, fates: Fates) {
    match l
    case Tick(_) | Reconcile | Select(_) | Xadd(_) | MarkDone(_) | Receive(_) | TryClaim(_) => true
    case Persist(w, world, delay) =>
      w in s.workers && s.workers[w].Working? && s.workers[w].claim.job == j && j in s.rows.jobs &&
      fates(s.rows.jobs[j].attempt) == Answers(world, delay)
    case WorkerCrash(w) =>
      w in s.workers && s.workers[w].Working? && s.workers[w].claim.job == j && j in s.rows.jobs &&
      fates(s.rows.jobs[j].attempt) == Crashes
    case _ => false
  }

  /** `ls` is a schedule of allowed steps that takes s to t. */
  ghost predicate Plays(c: Config, s: State, ls: seq<Label>, t: State, j: Id, fates: Fates)
    decreases |ls|
  {
    if ls == [] then s == t
    else Enabled(c, s, ls[0]) && Allowed(s, ls[0], j, fates) &&
         Plays(c, Next(c, s, ls[0]), ls[1..], t, j, fates)
  }

  lemma {:induction false} PlaysAppend(c: Config, s: State, ls: seq<Label>, t: State,
                                       ms: seq<Label>, u: State, j: Id, fates: Fates)
    requires Plays(c, s, ls, t, j, fates) && Plays(c, t, ms, u, j, fates)
    ensures Plays(c, s, ls + ms, u, j, fates)
    decreases |ls|
  {
    if ls == [] {
      assert ls + ms == ms;
    } else {
      PlaysAppend(c, Next(c, s, ls[0]), ls[1..], t, ms, u, j, fates);
      assert (ls + ms)[0] == ls[0] && (ls + ms)[1..] == ls[1..] + ms;
    }
  }

  lemma {:induction false} PlaysInv(c: Config, s: State, ls: seq<Label>, t: State, j: Id,
                                    fates: Fates)
    requires Inv(c, s) && Plays(c, s, ls, t, j, fates)
    ensures Inv(c, t)
    decreases |ls|
  {
    if ls != [] {
      StepInv(c, s, ls[0]);
      PlaysInv(c, Next(c, s, ls[0]), ls[1..], t, j, fates);
    }
  }

  lemma PlaysOne(c: Config, s: State, l: Label, j: Id, fates: Fates)
    requires Enabled(c, s, l) && Allowed(s, l, j, fates)
    ensures Plays(c, s, [l], Next(c, s, l), j, fates)
  {
    assert [l][1..] == [];
    assert Plays(c, Next(c, s, l), [l][1..], Next(c, s, l), j, fates);
  }

  /** Extends a schedule by one step. */
  lemma PlaysStep(c: Config, s: State, ls: seq<Label>, t: State, l: Label, j: Id, fates: Fates)
    requires Plays(c, s, ls, t, j, fates) && Enabled(c, t, l) && Allowed(t, l, j, fates)
    ensures Plays(c, s, ls + [l], Next(c, t, l), j, fates)
  {
    PlaysOne(c, t, l, j, fates);
    PlaysAppend(c, s, ls, t, [l], Next(c, t, l), j, fates);
  }

  // ----- 1. waiting and reconciling make the event due -----

  predicate SameWork(r: Rows, r': Rows) { r'.jobs == r.jobs && r'.versions == r.versions }

  function OrZero(t: Option<Time>): Time { if t.Some? then t.value else 0 }

  /** Long enough for every lease, delay and staleness bound of job j to pass. */
  function Patience(c: Config, rows: Rows, j: Id): Time
    requires JobRefs(rows, j)
  {
    var job, e := rows.jobs[j], rows.events[EventKey(j, Ingestion)];
    job.nextAttemptAt + OrZero(job.lease) + e.availableAt + OrZero(e.publishLease) +
    OrZero(e.publishedAt) + c.reconcile
  }

  lemma MakeDue(c: Config, s: State, j: Id, fates: Fates) returns (ls: seq<Label>, t: State)
    requires Inv(c, s) && j in s.rows.jobs && !Terminal(s.rows.jobs[j])
    ensures Plays(c, s, ls, t, j, fates) && SameWork(s.rows, t.rows)
    ensures Due(t.rows, EventKey(j, Ingestion)) && JobDue(t.rows, j)
  {
    var k := EventKey(j, Ingestion);
    assert JobRefs(s.rows, j) && Lifecycle(c, s.rows, j);
    var wait := Tick(Patience(c, s.rows, j));
    PlaysOne(c, s, wait, j, fates);
    ls, t := [wait], Next(c, s, wait);
    if s.rows.events[k].publishedAt.Some? {
      assert Stale(t.rows, k, c.reconcile);
      PlaysStep(c, s, ls, t, Reconcile, j, fates);
      ls, t := ls + [Reconcile], Next(c, t, Reconcile);
    }
  }

  // ----- 2. the relay drains what is ahead of the event -----

  /** The event as `publish_one` leaves it. */
  function AsPublished(rows: Rows, k: EventKey): Event
    requires k in rows.events
  {
    rows.events[k].(publishedAt := Some(rows.now), token := None, publishLease := None)
  }

  predicate Delivered(s: State, k: EventKey) {
    k in s.rows.events && k.job in s.rows.jobs &&
    exists m | m in s.stream :: s.stream[m] == EnvelopeFor(s.rows.events[k], k.job, s.rows.jobs[k.job])
  }

  lemma SelectThenAdd(c: Config, s: State, h: EventKey)
    requires Inv(c, s) && IsHead(s.rows, h)
    ensures var id := s.nextId;
      var s1 := Next(c, s, Select(h));
      && Enabled(c, s1, Xadd(id)) && Inv(c, s1) && s1.nextId == id + 2
      && s1.rows == SelectTx(s.rows, h, id) && s1.stream == s.stream && s1.workers == s.workers
      && s1.relays[id] ==
           Relay(h, EnvelopeFor(s.rows.events[h], h.job, s.rows.jobs[h.job]), false)
  {
    StepInv(c, s, Select(h));
  }

  /** The three steps of `publish_one`: the head is published and nothing else changes; an ingestion
      event is in the stream. */
  lemma PublishSteps(c: Config, s: State, h: EventKey)
    requires Inv(c, s) && IsHead(s.rows, h)
    ensures var id := s.nextId;
      var s1 := Next(c, s, Select(h));
      && Enabled(c, s1, Xadd(id))
      && var s2 := Next(c, s1, Xadd(id));
         && Enabled(c, s2, MarkDone(id))
         && var t := Next(c, s2, MarkDone(id));
            && t.rows == s.rows.(events := s.rows.events[h := AsPublished(s.rows, h)])
            && t.workers == s.workers
            && t.stream == if h.kind.Dead? then s.stream else
                 s.stream[id + 2 := EnvelopeFor(s.rows.events[h], h.job, s.rows.jobs[h.job])]
  {
    var id := s.nextId;
    SelectThenAdd(c, s, h);
    var s1 := Next(c, s, Select(h));
    StepInv(c, s1, Xadd(id));
    MarksOnlyHead(s, Next(c, s1, Xadd(id)), h, id);
  }

  lemma PublishHead(c: Config, s: State, h: EventKey, j: Id, fates: Fates)
      returns (ls: seq<Label>, t: State)
    requires Inv(c, s) && IsHead(s.rows, h)
    ensures Plays(c, s, ls, t, j, fates)
    ensures t.rows == s.rows.(events := s.rows.events[h := AsPublished(s.rows, h)])
    ensures h.kind.Ingestion? ==> Delivered(t, h)
  {
    var id := s.nextId;
    PublishSteps(c, s, h);
    var s1 := Next(c, s, Select(h));
    var s2 := Next(c, s1, Xadd(id));
    t := Next(c, s2, MarkDone(id));
    PlaysOne(c, s, Select(h), j, fates);
    PlaysStep(c, s, [Select(h)], s1, Xadd(id), j, fates);
    ls := [Select(h)] + [Xadd(id)];
    PlaysStep(c, s, ls, s2, MarkDone(id), j, fates);
    ls := ls + [MarkDone(id)];
    if h.kind.Ingestion? {
      assert id + 2 in t.stream;
    }
  }

  lemma MarksOnlyHead(s: State, s2: State, h: EventKey, token: Id)
    requires h in s.rows.events && s2.rows == SelectTx(s.rows, h, token) && EventIds(s2)
    ensures MarkPublished(s2.rows, s.rows.events[h].id, token).events
              == s.rows.events[h := AsPublished(s.rows, h)]
  {
    var marked := MarkPublished(s2.rows, s.rows.events[h].id, token).events;
    forall k | k in s.rows.events && k != h ensures marked[k] == s.rows.events[k] {
      if s2.rows.events[k].id == s.rows.events[h].id {
        assert EventHasId(s2.rows, k, s.rows.events[h].id) && EventHasId(s2.rows, h, s.rows.events[h].id);
      }
    }
  }

  lemma {:induction false} Drain(c: Config, s: State, k: EventKey, j: Id, fates: Fates)
      returns (ls: seq<Label>, t: State)
    requires Inv(c, s) && Due(s.rows, k) && k.kind.Ingestion?
    ensures Plays(c, s, ls, t, j, fates) && SameWork(s.rows, t.rows) && t.rows.now == s.rows.now
    ensures Delivered(t, k)
    decreases |DueSet(s.rows)|
  {
    assert k in DueSet(s.rows);
    HeadExists(s.rows, k);
    var h :| h in DueSet(s.rows) && IsHead(s.rows, h);
    ls, t := PublishHead(c, s, h, j, fates);
    if h != k {
      PlaysInv(c, s, ls, t, j, fates);
      assert DueSet(t.rows) == DueSet(s.rows) - {h};
      var ms, u := Drain(c, t, k, j, fates);
      PlaysAppend(c, s, ls, t, ms, u, j, fates);
      ls, t := ls + ms, u;
    }
  }

  // ----- 3. a consumer takes the delivery and runs one attempt -----

  predicate Progressed(r: Rows, r': Rows, j: Id) {
    j in r.jobs && j in r'.jobs &&
    (Terminal(r'.jobs[j]) || r'.jobs[j].attempt == r.jobs[j].attempt + 1)
  }

  /** Claiming due work either ends the job or starts an attempt. */
  lemma ClaimProgress(c: Config, r: Rows, j: Id, env: Envelope, dead: Id)
    requires c.Valid() && RowsInv(c, r) && j in r.jobs && !Terminal(r.jobs[j]) && JobDue(r, j)
    requires Authentic(r, env) && env.job == j
    ensures var (r', result) := ClaimTx(c, r, env, dead);
      j in r'.jobs &&
      if r.jobs[j].attempt >= c.maxAttempts then r'.jobs[j].state.Failed?
      else result.Granted? && result.claim.job == j && Holds(r', result.claim) &&
           r'.jobs[j].attempt == r.jobs[j].attempt + 1
  {
    assert Lifecycle(c, r, j);
    ClaimSafe(c, r, env, dead);
  }

  /** Receiving an authentic delivery of due work either ends the job or starts an attempt. */
  lemma Deliver(c: Config, s: State, j: Id, m: Id)
    requires c.Valid() && Inv(c, s)
    requires j in s.rows.jobs && !Terminal(s.rows.jobs[j]) && JobDue(s.rows, j)
    requires m in s.stream && Authentic(s.rows, s.stream[m]) && s.stream[m].job == j
    ensures var w := s.nextId;
      var s1 := Next(c, s, Receive(m));
      && Enabled(c, s1, TryClaim(w))
      && var s2 := Next(c, s1, TryClaim(w));
         j in s2.rows.jobs && Inv(c, s2) &&
         if s.rows.jobs[j].attempt >= c.maxAttempts then s2.rows.jobs[j].state.Failed?
         else Attempting(s2, w, j) && s2.rows.jobs[j].attempt == s.rows.jobs[j].attempt + 1
  {
    var s1 := Next(c, s, Receive(m));
    StepInv(c, s, Receive(m));
    StepInv(c, s1, TryClaim(s.nextId));
    ClaimProgress(c, s1.rows, j, s1.workers[s.nextId].envelope, s1.nextId);
  }

  predicate Attempting(s: State, w: Id, j: Id) {
    w in s.workers && s.workers[w].Working? && s.workers[w].claim.job == j &&
    Holds(s.rows, s.workers[w].claim) && s.rows.jobs[j].attempt >= 1
  }

  function FateLabel(w: Id, fate: Fate): Label {
    match fate
    case Crashes => WorkerCrash(w)
    case Answers(world, delay) => Persist(w, world, delay)
  }

  lemma AnswerKeeps(c: Config, s: State, w: Id, world: World, delay: Time, j: Id)
    requires Attempting(s, w, j) && Enabled(c, s, Persist(w, world, delay))
    ensures var r' := Next(c, s, Persist(w, world, delay)).rows;
      j in r'.jobs && r'.jobs[j].attempt == s.rows.jobs[j].attempt
  {
    match Examine(s.workers[w].claim, world) {
      case Built(build) =>
      case Broken(code, state, transient) =>
    }
  }

  lemma Suffer(c: Config, s: State, w: Id, j: Id, fates: Fates)
    requires Inv(c, s) && Attempting(s, w, j) && Jittered(c, fates)
    ensures var l := FateLabel(w, fates(s.rows.jobs[j].attempt));
      && Enabled(c, s, l) && Allowed(s, l, j, fates)
      && var r' := Next(c, s, l).rows;
         j in r'.jobs && r'.jobs[j].attempt == s.rows.jobs[j].attempt
  {
    var fate := fates(s.rows.jobs[j].attempt);
    if fate.Answers? {
      assert Enabled(c, s, Persist(w, fate.world, fate.delay));
      AnswerKeeps(c, s, w, fate.world, fate.delay, j);
    }
  }

  lemma Attempt(c: Config, s: State, j: Id, fates: Fates) returns (ls: seq<Label>, t: State)
    requires c.Valid() && Inv(c, s) && Jittered(c, fates)
    requires j in s.rows.jobs && !Terminal(s.rows.jobs[j]) && JobDue(s.rows, j)
    requires Delivered(s, EventKey(j, Ingestion))
    ensures Plays(c, s, ls, t, j, fates) && Progressed(s.rows, t.rows, j)
  {
    var k := EventKey(j, Ingestion);
    var m :| m in s.stream && s.stream[m] == EnvelopeFor(s.rows.events[k], j, s.rows.jobs[j]);
    var w := s.nextId;
    Deliver(c, s, j, m);
    var s1 := Next(c, s, Receive(m));
    t := Next(c, s1, TryClaim(w));
    PlaysOne(c, s, Receive(m), j, fates);
    PlaysStep(c, s, [Receive(m)], s1, TryClaim(w), j, fates);
    ls := [Receive(m)] + [TryClaim(w)];
    if s.rows.jobs[j].attempt < c.maxAttempts {
      Suffer(c, t, w, j, fates);
      var l := FateLabel(w, fates(t.rows.jobs[j].attempt));
      PlaysStep(c, s, ls, t, l, j, fates);
      ls, t := ls + [l], Next(c, t, l);
    }
  }

  lemma Round(c: Config, s: State, j: Id, fates: Fates) returns (ls: seq<Label>, t: State)
    requires c.Valid() && Inv(c, s) && Jittered(c, fates)
    requires j in s.rows.jobs && !Terminal(s.rows.jobs[j])
    ensures Plays(c, s, ls, t, j, fates) && Inv(c, t) && Progressed(s.rows, t.rows, j)
  {
    var l1, s1 := MakeDue(c, s, j, fates);
    PlaysInv(c, s, l1, s1, j, fates);
    var l2, s2 := Drain(c, s1, EventKey(j, Ingestion), j, fates);
    PlaysAppend(c, s, l1, s1, l2, s2, j, fates);
    PlaysInv(c, s1, l2, s2, j, fates);
    var l3, s3 := Attempt(c, s2, j, fates);
    PlaysAppend(c, s, l1 + l2, s2, l3, s3, j, fates);
    ls, t := l1 + l2 + l3, s3;
    PlaysInv(c, s, ls, t, j, fates);
  }

  lemma {:induction false} Finish(c: Config, s: State, j: Id, fates: Fates)
      returns (ls: seq<Label>, t: State)
    requires c.Valid() && Inv(c, s) && Jittered(c, fates) && j in s.rows.jobs
    ensures Plays(c, s, ls, t, j, fates) && j in t.rows.jobs && Terminal(t.rows.jobs[j])
    decreases c.maxAttempts - s.rows.jobs[j].attempt, !Terminal(s.rows.jobs[j])
  {
    assert Lifecycle(c, s.rows, j);
    if Terminal(s.rows.jobs[j]) { return [], s; }
    ls, t := Round(c, s, j, fates);
    assert Lifecycle(c, t.rows, j);
    if !Terminal(t.rows.jobs[j]) {
      var ms, u := Finish(c, t, j, fates);
      PlaysAppend(c, s, ls, t, ms, u, j, fates);
      ls, t := ls + ms, u;
    }
  }

  /** From every state of every run, for every job and every sequence of fates. */
  lemma NoJobStranded(c: Config, states: seq<State>, labels: seq<Label>, n: nat, j: Id,
                      fates: Fates)
    requires c.Valid() && IsRun(c, states, labels) && n <= |labels|
    requires j in states[n].rows.jobs && Jittered(c, fates)
    ensures exists ls, t :: Plays(c, states[n], ls, t, j, fates) &&
                            j in t.rows.jobs && Terminal(t.rows.jobs[j])
  {
    InvAt(c, states, labels, n);
    var ls, t := Finish(c, states[n], j, fates);
  }
}
