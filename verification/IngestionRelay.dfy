/** The outbox relay: publish tokens tie every PUBLISHED mark to an XADD that happened after the
    latest request to deliver the event. */
module IngestionRelay {
  import opened Options
  import opened IngestionRows
  import opened IngestionSystem
  import opened IngestionInvariant
  import opened IngestionPreservation
  import opened IngestionRuns

  predicate Published(s: State, k: EventKey) {
    k in s.rows.events && s.rows.events[k].publishedAt.Some?
  }

  /** Step l asks again for the delivery of event k: `schedule_retry`, or a `reconcile` hit. */
  predicate Resets(c: Config, s: State, l: Label, k: EventKey) {
    match l
    case Reconcile => Stale(s.rows, k, c.reconcile)
    case Persist(w, world, _) =>
      k.kind.Ingestion? && w in s.workers && s.workers[w].Working? &&
      var claim := s.workers[w].claim;
      claim.job == k.job && Holds(s.rows, claim) && Passing(claim, world) &&
      s.rows.jobs[claim.job].attempt < c.maxAttempts
    case _ => false
  }

  /** No step in [from, to) resets the event. */
  ghost predicate NoReset(c: Config, states: seq<State>, labels: seq<Label>, k: EventKey,
                          from: int, to: int) {
    forall i {:trigger labels[i]} ::
      0 <= from <= i < to <= |labels| < |states| ==> !Resets(c, states[i], labels[i], k)
  }

  ghost predicate SelectedAt(states: seq<State>, labels: seq<Label>, a: int, k: EventKey, t: Id) {
    0 <= a < |labels| < |states| && labels[a] == Select(k) && states[a].nextId == t
  }

  /** A reset withdraws the mark and the token; every other step keeps a token unless it is
      replaced by a new selection, and only `MarkDone` under that token sets the mark. */
  lemma ResetWithdraws(c: Config, s: State, l: Label, k: EventKey)
    requires Inv(c, s) && Enabled(c, s, l) && k in s.rows.events && Resets(c, s, l, k)
    ensures var r' := Next(c, s, l).rows;
      k in r'.events && r'.events[k].publishedAt.None? && r'.events[k].token.None? &&
      r'.events[k].publishLease.None?
  {
    if l.Persist? { ExamineMeans(s.workers[l.worker].claim, l.world); }
  }

  lemma MarkNeedsToken(c: Config, s: State, l: Label, k: EventKey)
    requires Inv(c, s) && Enabled(c, s, l)
    requires !Published(s, k) && Published(Next(c, s, l), k)
    ensures l.MarkDone? && HoldsToken(s.rows, k, l.relay)
  {
    if ByApi(l) {
      ApiKeys(c, s, l);
    } else if ByWorker(l) {
      WorkerKeys(c, s, l);
    } else if !ByRelay(l) {
      OtherRows(c, s, l);
    }
  }

  /** A token held after a step was held before it, with no reset, or was just written. */
  lemma TokenStep(c: Config, s: State, l: Label, k: EventKey, t: Id)
    requires Inv(c, s) && Enabled(c, s, l) && HoldsToken(Next(c, s, l).rows, k, t)
    ensures (HoldsToken(s.rows, k, t) && !Resets(c, s, l, k)) || (l == Select(k) && s.nextId == t)
  {
    StepKeys(c, s, l);
    if k in s.rows.events && Resets(c, s, l, k) { ResetWithdraws(c, s, l, k); }
  }

  lemma TokenAt(c: Config, states: seq<State>, labels: seq<Label>, i: nat, k: EventKey, t: Id)
    requires IsRun(c, states, labels) && i < |labels| && HoldsToken(states[i + 1].rows, k, t)
    ensures (HoldsToken(states[i].rows, k, t) && !Resets(c, states[i], labels[i], k)) ||
            SelectedAt(states, labels, i, k, t)
    ensures SelectedAt(states, labels, i, k, t) ==> !Resets(c, states[i], labels[i], k)
  {
    InvAt(c, states, labels, i);
    assert StepAt(c, states, labels, i);
    TokenStep(c, states[i], labels[i], k, t);
  }

  /** A token on an event was written by one selection, and the event was not reset since. */
  lemma {:induction false} TokenOrigin(c: Config, states: seq<State>, labels: seq<Label>,
                                       n: nat, k: EventKey, t: Id) returns (a: nat)
    requires IsRun(c, states, labels) && n <= |labels| && HoldsToken(states[n].rows, k, t)
    ensures a < n && SelectedAt(states, labels, a, k, t) && NoReset(c, states, labels, k, a, n)
  {
    if n == 0 { assert false; }
    TokenAt(c, states, labels, n - 1, k, t);
    if SelectedAt(states, labels, n - 1, k, t) {
      a := n - 1;
    } else {
      a := TokenOrigin(c, states, labels, n - 1, k, t);
    }
  }

  predicate HasAdded(s: State, t: Id) { t in s.relays && s.relays[t].added }

  lemma AddedAt(c: Config, states: seq<State>, labels: seq<Label>, i: nat, t: Id)
    requires IsRun(c, states, labels) && i < |labels| && HasAdded(states[i + 1], t)
    ensures HasAdded(states[i], t) || (labels[i] == Xadd(t) && t in states[i].relays)
  {
    assert StepAt(c, states, labels, i);
  }

  /** A relay that may mark has done its XADD after it selected. */
  lemma {:induction false} AddOrigin(c: Config, states: seq<State>, labels: seq<Label>,
                                     n: nat, t: Id) returns (b: nat)
    requires IsRun(c, states, labels) && n <= |labels| && HasAdded(states[n], t)
    ensures b < n && labels[b] == Xadd(t) && t in states[b].relays
  {
    if n == 0 { assert false; }
    AddedAt(c, states, labels, n - 1, t);
    if HasAdded(states[n - 1], t) {
      b := AddOrigin(c, states, labels, n - 1, t);
    } else {
      b := n - 1;
    }
  }

  lemma MarkedNow(c: Config, states: seq<State>, labels: seq<Label>, d: nat, k: EventKey)
      returns (a: nat, b: nat, t: Id)
    requires IsRun(c, states, labels) && d < |labels|
    requires !Published(states[d], k) && Published(states[d + 1], k)
    ensures a < b < d && labels[d] == MarkDone(t)
    ensures SelectedAt(states, labels, a, k, t)
    ensures labels[b] == Xadd(t) && t in states[b].relays && states[b].relays[t].key == k
    ensures NoReset(c, states, labels, k, a, d + 1)
  {
    RunStep(c, states, labels, d);
    InvAt(c, states, labels, d);
    MarkNeedsToken(c, states[d], labels[d], k);
    t := labels[d].relay;
    a := TokenOrigin(c, states, labels, d, k, t);
    b := AddOrigin(c, states, labels, d, t);
    AddAfterSelect(c, states, labels, a, b, k, t);
    RelayKeyAt(c, states, labels, a, b, k, t);
  }

  /** Whenever an event is marked published, one relay selected it at step a, added it to the stream
      at step b and marked it at step d, in this order, and nothing has asked for the event again
      since it was selected. So a retry scheduled during a publish is never swallowed. */
  lemma {:induction false} PublishedWasAdded(c: Config, states: seq<State>, labels: seq<Label>,
                                             n: nat, k: EventKey)
      returns (a: nat, b: nat, d: nat, t: Id)
    requires IsRun(c, states, labels) && n <= |labels| && Published(states[n], k)
    ensures a < b < d < n
    ensures SelectedAt(states, labels, a, k, t)
    ensures labels[b] == Xadd(t) && t in states[b].relays && states[b].relays[t].key == k
    ensures labels[d] == MarkDone(t)
    ensures NoReset(c, states, labels, k, a, n)
  {
    if n == 0 { assert false; }
    if Published(states[n - 1], k) {
      a, b, d, t := PublishedWasAdded(c, states, labels, n - 1, k);
      RunStep(c, states, labels, n - 1);
      InvAt(c, states, labels, n - 1);
      if Resets(c, states[n - 1], labels[n - 1], k) {
        ResetWithdraws(c, states[n - 1], labels[n - 1], k);
      }
    } else {
      d := n - 1;
      a, b, t := MarkedNow(c, states, labels, d, k);
    }
  }

  lemma AddAfterSelect(c: Config, states: seq<State>, labels: seq<Label>, a: nat, b: nat,
                       k: EventKey, t: Id)
    requires IsRun(c, states, labels) && SelectedAt(states, labels, a, k, t)
    requires b < |labels| && t in states[b].relays
    ensures a < b
  {
    InvAt(c, states, labels, b);
    if b <= a { GrowsBetween(c, states, labels, b, a); }
  }

  lemma {:induction false} RelayKeyAt(c: Config, states: seq<State>, labels: seq<Label>, a: nat,
                                      n: nat, k: EventKey, t: Id)
    requires IsRun(c, states, labels) && SelectedAt(states, labels, a, k, t)
    requires a < n <= |labels| && t in states[n].relays
    ensures states[n].relays[t].key == k
    decreases n
  {
    RunStep(c, states, labels, n - 1);
    GrowsBetween(c, states, labels, a, n - 1);
    StepFlightIds(c, states[n - 1], labels[n - 1]);
    if a < n - 1 {
      RunStep(c, states, labels, a);
      GrowsBetween(c, states, labels, a + 1, n - 1);
      assert t < states[n - 1].nextId;
      RelayKeyAt(c, states, labels, a, n - 1, k, t);
    }
  }

  /** A relay whose token is gone from every event marks nothing. */
  lemma LostTokenMarksNothing(c: Config, states: seq<State>, labels: seq<Label>, i: nat)
    requires IsRun(c, states, labels) && i < |labels| && labels[i].MarkDone?
    requires forall k :: !HoldsToken(states[i].rows, k, labels[i].relay)
    ensures states[i + 1].rows == states[i].rows
  {
    assert StepAt(c, states, labels, i);
    var r, r' := states[i].rows, states[i + 1].rows;
    forall k | k in r.events ensures r'.events[k] == r.events[k] {
      assert !HoldsToken(r, k, labels[i].relay);
    }
    assert r'.events == r.events;
  }
}
