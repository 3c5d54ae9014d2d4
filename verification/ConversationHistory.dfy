/** Reading a conversation: pages of its history, the client that follows them to the end, and the
    window of earlier turns that goes into a tutor request. */
module ConversationHistory {
  import opened Options
  import opened TutorContract
  import opened ConversationRows
  import opened ConversationSystem
  import opened ConversationInvariant
  import opened ConversationPreservation
  import opened ConversationRuns

  // ----- the query for one page -----

  predicate After(r: Rows, x: Id, after: int, m: Id) {
    m in r.messages && r.messages[m].conversation == x && after < r.messages[m].sequence
  }

  predicate Ascending(r: Rows, ids: seq<Id>) {
    (forall i | 0 <= i < |ids| :: ids[i] in r.messages) &&
    forall i, j | 0 <= i < j < |ids| :: r.messages[ids[i]].sequence < r.messages[ids[j]].sequence
  }

  /** WHERE sequence > after ORDER BY sequence LIMIT limit. */
  ghost predicate Selected(r: Rows, x: Id, after: nat, limit: nat, ids: seq<Id>) {
    |ids| <= limit && Ascending(r, ids) &&
    (forall i | 0 <= i < |ids| :: After(r, x, after, ids[i])) &&
    forall m | After(r, x, after, m) ::
      m in ids || (|ids| == limit && forall i | 0 <= i < |ids| ::
        r.messages[ids[i]].sequence < r.messages[m].sequence)
  }

  ghost predicate Numbered(r: Rows, x: Id) {
    x in r.conversations && Unique(r) && Gapless(r, x) &&
    forall m | m in r.messages :: Scoped(r, m)
  }

  /** Sequences have no gap, so a page is a run of consecutive sequence numbers. */
  lemma {:induction false} SelectedAt(r: Rows, x: Id, after: nat, limit: nat, ids: seq<Id>, i: nat)
    requires Numbered(r, x) && Selected(r, x, after, limit, ids) && i < |ids|
    ensures AtSequence(r, x, after + 1 + i, ids[i])
  {
    var n := after + 1 + i;
    forall j | 0 <= j < i ensures r.messages[ids[j]].sequence == after + 1 + j {
      SelectedAt(r, x, after, limit, ids, j);
    }
    if i > 0 { assert r.messages[ids[i - 1]].sequence < r.messages[ids[i]].sequence; }
    assert n <= r.messages[ids[i]].sequence && Scoped(r, ids[i]);
    if n < r.messages[ids[i]].sequence {
      assert Filled(r, x, n);
      var m :| AtSequence(r, x, n, m);
      assert After(r, x, after, m);
      assert forall j | i < j < |ids| :: r.messages[ids[i]].sequence < r.messages[ids[j]].sequence;
      assert forall j | 0 <= j < |ids| :: r.messages[ids[j]].sequence != n;
      assert false;
    }
  }

  lemma SelectedCount(r: Rows, x: Id, after: nat, limit: nat, ids: seq<Id>)
    requires Numbered(r, x) && Selected(r, x, after, limit, ids)
    ensures |ids| == limit || after + 1 + |ids| >= r.conversations[x].nextSequence
  {
    var n := after + 1 + |ids|;
    if |ids| < limit && n < r.conversations[x].nextSequence {
      assert Filled(r, x, n);
      var m :| AtSequence(r, x, n, m);
      assert After(r, x, after, m);
      var i :| 0 <= i < |ids| && ids[i] == m;
      SelectedAt(r, x, after, limit, ids, i);
      assert false;
    }
  }

  // ----- the server's page and the client's loop -----

  /** A message as the client holds it: its identifier and what it looked like when it was read. */
  datatype View = View(id: Id, message: Message)
  datatype Page = Page(messages: seq<View>, next: Option<nat>)

  /** `HistoryView` of the rows a query with one row more than the limit found. */
  function PageOf(r: Rows, limit: nat, ids: seq<Id>): Page
    requires 1 <= limit && forall i :: 0 <= i < |ids| ==> ids[i] in r.messages
  {
    var shown := if |ids| <= limit then ids else ids[..limit];
    Page(seq(|shown|, i requires 0 <= i < |shown| => View(shown[i], r.messages[shown[i]])),
         if |ids| > limit then Some(r.messages[ids[limit - 1]].sequence) else None)
  }

  ghost predicate Serves(r: Rows, x: Id, after: nat, limit: nat, page: Page)
    requires 1 <= limit
  {
    exists ids :: Selected(r, x, after, limit + 1, ids) && page == PageOf(r, limit, ids)
  }

  ghost predicate Shows(r: Rows, x: Id, n: int, v: View) {
    AtSequence(r, x, n, v.id) && v.message == r.messages[v.id]
  }

  /** One page: the next messages in sequence, no gap and no repeat; there is a next cursor exactly
      when messages remain, and it is past the one asked for. */
  lemma PageExact(r: Rows, x: Id, after: nat, limit: nat, page: Page)
    requires Numbered(r, x) && 1 <= limit && Serves(r, x, after, limit, page)
    ensures forall i :: 0 <= i < |page.messages| ==> Shows(r, x, after + 1 + i, page.messages[i])
    ensures page.next.Some? ==>
      page.next.value == after + |page.messages| && |page.messages| == limit &&
      page.next.value + 1 < r.conversations[x].nextSequence
    ensures page.next.None? ==> after + |page.messages| + 1 >= r.conversations[x].nextSequence
  {
    var ids :| Selected(r, x, after, limit + 1, ids) && page == PageOf(r, limit, ids);
    SelectedCount(r, x, after, limit + 1, ids);
    forall i | 0 <= i < |ids| ensures AtSequence(r, x, after + 1 + i, ids[i]) {
      SelectedAt(r, x, after, limit + 1, ids, i);
    }
    if |ids| > limit {
      assert AtSequence(r, x, after + limit, ids[limit - 1]);
      assert AtSequence(r, x, after + 1 + limit, ids[limit]) && Scoped(r, ids[limit]);
    }
  }

  /** The rows at the time of each request: they may change between pages, as any run allows. */
  ghost predicate Timeline(x: Id, bound: nat, rows: nat -> Rows) {
    (forall k {:trigger rows(k)} :: Numbered(rows(k), x) && rows(k).conversations[x].nextSequence <= bound) &&
    forall j, k {:trigger rows(j), rows(k)} | j <= k :: Grows(rows(j), rows(k))
  }

  lemma InvNumbers(r: Rows, x: Id)
    requires RowsInv(r) && x in r.conversations
    ensures Numbered(r, x)
  {
    assert Gapless(r, x);
    forall m | m in r.messages ensures Scoped(r, m) {}
  }

  /** The requests may fall anywhere in any run, with any steps in between. */
  lemma RunTimeline(c: Config, states: seq<State>, labels: seq<Label>, x: Id, at: nat -> nat,
                    rows: nat -> Rows)
    requires IsRun(c, states, labels)
    requires forall k {:trigger at(k)} {:trigger rows(k)} ::
      at(k) <= |labels| && rows(k) == states[at(k)].rows
    requires forall j, k {:trigger at(j), at(k)} | j <= k :: at(j) <= at(k)
    requires x in rows(0).conversations
    ensures x in states[|labels|].rows.conversations
    ensures Timeline(x, states[|labels|].rows.conversations[x].nextSequence, rows)
  {
    forall j, k | j <= k ensures Grows(rows(j), rows(k)) {
      assert at(j) <= at(k) && rows(j) == states[at(j)].rows && rows(k) == states[at(k)].rows;
      GrowsBetween(c, states, labels, at(j), at(k));
    }
    forall k ensures Numbered(rows(k), x)
      && Grows(rows(k), states[|labels|].rows)
    {
      assert rows(k) == states[at(k)].rows && Grows(rows(0), rows(k));
      GrowsBetween(c, states, labels, at(k), |labels|);
      InvAt(c, states, labels, at(k));
      InvNumbers(rows(k), x);
    }
    assert Grows(rows(0), states[|labels|].rows);
  }

  /** The message was at its place at one of the requests so far. */
  ghost predicate ReadAt(x: Id, rows: nat -> Rows, n: int, v: View, requests: nat) {
    exists k | 0 <= k < requests :: Shows(rows(k), x, n, v)
  }

  ghost predicate Read(x: Id, rows: nat -> Rows, messages: seq<View>, requests: nat) {
    forall n {:trigger ReadAt(x, rows, n + 1, messages[n], requests)} {:trigger messages[n]} |
      0 <= n < |messages| :: ReadAt(x, rows, n + 1, messages[n], requests)
  }

  /** One request of the client: the page extends what it holds by the next messages. */
  lemma Asked(x: Id, bound: nat, rows: nat -> Rows, messages: seq<View>, limit: nat, page: Page, k: nat)
    requires 1 <= limit && Timeline(x, bound, rows)
    requires Serves(rows(k), x, |messages|, limit, page) && Read(x, rows, messages, k)
    ensures Read(x, rows, messages + page.messages, k + 1)
    ensures page.next.Some? ==>
      page.next.value == |messages + page.messages| && |messages| < page.next.value < bound
    ensures page.next.None? ==>
      |messages + page.messages| + 1 >= rows(k).conversations[x].nextSequence
  {
    PageExact(rows(k), x, |messages|, limit, page);
    var all := messages + page.messages;
    forall n | 0 <= n < |all| ensures ReadAt(x, rows, n + 1, all[n], k + 1) {
      if n < |messages| {
        assert ReadAt(x, rows, n + 1, messages[n], k);
        var j :| 0 <= j < k && Shows(rows(j), x, n + 1, messages[n]);
        assert 0 <= j < k + 1 && Shows(rows(j), x, n + 1, all[n]);
      } else {
        assert Shows(rows(k), x, |messages| + 1 + (n - |messages|), page.messages[n - |messages|]);
      }
    }
  }

  /** The server answers every request from the rows of the moment. */
  ghost predicate Answering(x: Id, rows: nat -> Rows, limit: nat, ask: (nat, nat) -> Page)
    requires 1 <= limit
  {
    forall k: nat, after: nat :: Serves(rows(k), x, after, limit, ask(k, after))
  }

  /** What the client holds before request number k. */
  ghost predicate Holding(x: Id, bound: nat, rows: nat -> Rows, messages: seq<View>, k: nat) {
    |messages| <= bound && Read(x, rows, messages, k)
  }

  /** What it may return after k requests: every message as of the last request, in order. */
  ghost predicate Complete(x: Id, rows: nat -> Rows, messages: seq<View>, k: nat) {
    1 <= k && Read(x, rows, messages, k) && x in rows(k - 1).conversations &&
    |messages| + 1 >= rows(k - 1).conversations[x].nextSequence &&
    forall n :: 0 <= n < |messages| ==> AtSequence(rows(k - 1), x, n + 1, messages[n].id)
  }

  lemma Completes(x: Id, bound: nat, rows: nat -> Rows, messages: seq<View>, k: nat)
    requires Timeline(x, bound, rows) && 1 <= k && Read(x, rows, messages, k)
    requires |messages| + 1 >= rows(k - 1).conversations[x].nextSequence
    ensures Complete(x, rows, messages, k)
  {
    Settled(x, bound, rows, messages, k);
  }

  lemma Served(x: Id, rows: nat -> Rows, limit: nat, ask: (nat, nat) -> Page, k: nat, after: nat)
    requires 1 <= limit && Answering(x, rows, limit, ask)
    ensures Serves(rows(k), x, after, limit, ask(k, after))
  {
  }

  /** One turn of the loop. */
  lemma Turn(x: Id, bound: nat, rows: nat -> Rows, limit: nat, ask: (nat, nat) -> Page,
             messages: seq<View>, k: nat)
    requires 1 <= limit && Timeline(x, bound, rows) && Answering(x, rows, limit, ask)
    requires Holding(x, bound, rows, messages, k)
    ensures var page := ask(k, |messages|);
      var all := messages + page.messages;
      if page.next.None? then Complete(x, rows, all, k + 1)
      else Holding(x, bound, rows, all, k + 1) && |messages| < page.next.value == |all|
  {
    var page := ask(k, |messages|);
    Served(x, rows, limit, ask, k, |messages|);
    Asked(x, bound, rows, messages, limit, page, k);
    if page.next.None? { Completes(x, bound, rows, messages + page.messages, k + 1); }
  }

  /** The client's loop. Against any server that answers from the rows of the moment it never fails
      with `invalid_history`, and returns every message of the conversation, as of the last request,
      once and in order of sequence. The bound only says that the conversation does not grow for
      ever while it is being read. */
  method History(x: Id, limit: nat, ghost bound: nat, ghost rows: nat -> Rows,
                 ask: (nat, nat) -> Page)
      returns (r: Result<seq<View>, string>, requests: nat)
    requires 1 <= limit && Timeline(x, bound, rows) && Answering(x, rows, limit, ask)
    ensures r.Ok? && Complete(x, rows, r.value, requests)
  {
    var messages: seq<View> := [];
    var cursor := 0;
    requests := 0;
    while true
      invariant |messages| == cursor && Holding(x, bound, rows, messages, requests)
      decreases bound - cursor
    {
      var page := ask(requests, cursor);
      Turn(x, bound, rows, limit, ask, messages, requests);
      requests := requests + 1;
      messages := messages + page.messages;
      if page.next.None? { return Ok(messages), requests; }
      if page.next.value <= cursor { return Err("invalid_history"), requests; }
      cursor := page.next.value;
    }
  }

  /** What was read earlier is still at its place at the last request. */
  lemma Settled(x: Id, bound: nat, rows: nat -> Rows, messages: seq<View>, requests: nat)
    requires Timeline(x, bound, rows) && 1 <= requests
    requires Read(x, rows, messages, requests)
    ensures forall n :: 0 <= n < |messages| ==> AtSequence(rows(requests - 1), x, n + 1, messages[n].id)
  {
    forall n | 0 <= n < |messages|
      ensures AtSequence(rows(requests - 1), x, n + 1, messages[n].id)
    {
      assert ReadAt(x, rows, n + 1, messages[n], requests);
      var k :| 0 <= k < requests && Shows(rows(k), x, n + 1, messages[n]);
      assert Grows(rows(k), rows(requests - 1));
      assert MessageKept(rows(k), rows(requests - 1), messages[n].id);
    }
  }

  // ----- the window of earlier turns in a tutor request -----

  const WINDOW_TURNS: nat := 6
  const WINDOW_CHARACTERS: int := 12000

  function Size(message: Message): nat {
    |message.question| + if message.answer.Some? then |message.answer.value| else 0
  }

  predicate Earlier(r: Rows, x: Id, before: int, m: Id) {
    IsCompleted(r, m, x) && r.messages[m].sequence < before
  }

  /** ORDER BY sequence DESC LIMIT 6 over the earlier completed turns. */
  ghost predicate Recent(r: Rows, x: Id, before: int, ids: seq<Id>) {
    |ids| <= WINDOW_TURNS &&
    (forall i | 0 <= i < |ids| :: Earlier(r, x, before, ids[i])) &&
    (forall i, j | 0 <= i < j < |ids| :: r.messages[ids[j]].sequence < r.messages[ids[i]].sequence) &&
    forall m | Earlier(r, x, before, m) ::
      m in ids || (|ids| == WINDOW_TURNS && forall i | 0 <= i < |ids| ::
        r.messages[m].sequence < r.messages[ids[i]].sequence)
  }

  function Total(r: Rows, ids: seq<Id>): nat
    requires forall i :: 0 <= i < |ids| ==> ids[i] in r.messages
  {
    if ids == [] then 0 else Size(r.messages[ids[0]]) + Total(r, ids[1..])
  }

  /** The last turns before this one, all of them from some point on, in chronological order. */
  ghost predicate IsSuffix(r: Rows, x: Id, before: int, ids: seq<Id>) {
    Ascending(r, ids) &&
    (forall i | 0 <= i < |ids| :: Earlier(r, x, before, ids[i])) &&
    forall m | Earlier(r, x, before, m) && ids != [] ::
      m in ids || r.messages[m].sequence < r.messages[ids[0]].sequence
  }

  ghost predicate Fits(r: Rows, x: Id, before: int, ids: seq<Id>) {
    IsSuffix(r, x, before, ids) && |ids| <= WINDOW_TURNS && Total(r, ids) <= WINDOW_CHARACTERS
  }

  lemma RecentAtLeast(r: Rows, x: Id, before: int, newest: seq<Id>, m: Id, k: nat)
    requires Recent(r, x, before, newest) && Earlier(r, x, before, m) && k < WINDOW_TURNS
    requires forall j :: 0 <= j < k ==>
      j < |newest| && r.messages[m].sequence < r.messages[newest[j]].sequence
    ensures k < |newest| && r.messages[m].sequence <= r.messages[newest[k]].sequence
  {
  }

  lemma SuffixAtMost(r: Rows, x: Id, before: int, ids: seq<Id>, o: Id, k: nat)
    requires IsSuffix(r, x, before, ids) && Earlier(r, x, before, o) && k < |ids|
    requires forall j :: k < j < |ids| ==> r.messages[o].sequence < r.messages[ids[j]].sequence
    requires r.messages[ids[k]].sequence <= r.messages[o].sequence
    ensures r.messages[ids[k]].sequence == r.messages[o].sequence
  {
    assert r.messages[ids[0]].sequence <= r.messages[ids[k]].sequence;
    var q :| 0 <= q < |ids| && ids[q] == o;
  }

  /** The last turns agree with the newest-first list, read backwards. */
  lemma {:induction false} SuffixIs(r: Rows, x: Id, before: int, newest: seq<Id>, ids: seq<Id>, k: nat)
    requires Unique(r) && Recent(r, x, before, newest) && IsSuffix(r, x, before, ids)
    requires k < |ids| <= WINDOW_TURNS
    ensures k < |newest| && ids[|ids| - 1 - k] == newest[k]
  {
    var p := |ids| - 1 - k;
    forall j | 0 <= j < k
      ensures j < |newest| && ids[|ids| - 1 - j] == newest[j]
      ensures r.messages[ids[p]].sequence < r.messages[newest[j]].sequence
    {
      SuffixIs(r, x, before, newest, ids, j);
    }
    RecentAtLeast(r, x, before, newest, ids[p], k);
    forall j | p < j < |ids| ensures r.messages[newest[k]].sequence < r.messages[ids[j]].sequence {
      assert ids[|ids| - 1 - (|ids| - 1 - j)] == newest[|ids| - 1 - j];
    }
    SuffixAtMost(r, x, before, ids, newest[k], p);
    var n := r.messages[newest[k]].sequence;
    assert AtSequence(r, x, n, ids[p]) && AtSequence(r, x, n, newest[k]);
  }

  function Reversed(ids: seq<Id>): seq<Id> {
    seq(|ids|, i requires 0 <= i < |ids| => ids[|ids| - 1 - i])
  }

  lemma {:induction false} TotalSuffix(r: Rows, ids: seq<Id>, k: nat)
    requires forall i :: 0 <= i < |ids| ==> ids[i] in r.messages
    requires k <= |ids|
    ensures Total(r, ids[k..]) <= Total(r, ids)
  {
    if k == 0 {
      assert ids[0..] == ids;
    } else {
      assert ids[1..][k - 1..] == ids[k..];
      TotalSuffix(r, ids[1..], k - 1);
    }
  }

  predicate Mirrors(newest: seq<Id>, ids: seq<Id>, k: nat) {
    k <= |ids| && k <= |newest| && forall j | 0 <= j < k :: ids[|ids| - 1 - j] == newest[j]
  }

  lemma SuffixMirrors(r: Rows, x: Id, before: int, newest: seq<Id>, ids: seq<Id>, k: nat)
    requires Unique(r) && Recent(r, x, before, newest) && IsSuffix(r, x, before, ids)
    requires k <= |ids| <= WINDOW_TURNS
    ensures Mirrors(newest, ids, k)
  {
    if k > 0 { SuffixIs(r, x, before, newest, ids, k - 1); }
    forall j: nat | j < k ensures j < |newest| && ids[|ids| - 1 - j] == newest[j] {
      SuffixIs(r, x, before, newest, ids, j);
    }
  }

  lemma MirrorsTotal(r: Rows, newest: seq<Id>, ids: seq<Id>, k: nat)
    requires forall i :: 0 <= i < |ids| ==> ids[i] in r.messages
    requires forall i :: 0 <= i < |newest| ==> newest[i] in r.messages
    requires Mirrors(newest, ids, k)
    ensures Total(r, Reversed(newest[..k])) <= Total(r, ids)
    ensures Reversed(newest[..k]) == ids[|ids| - k..]
  {
    assert Reversed(newest[..k]) == ids[|ids| - k..];
    TotalSuffix(r, ids, |ids| - k);
  }

  lemma PrefixAscends(r: Rows, x: Id, before: int, newest: seq<Id>, k: nat)
    requires Recent(r, x, before, newest) && k <= |newest|
    ensures var ids := Reversed(newest[..k]);
      Ascending(r, ids) && forall i | 0 <= i < |ids| :: Earlier(r, x, before, ids[i])
  {
    var ids := Reversed(newest[..k]);
    forall i | 0 <= i < |ids| ensures ids[i] == newest[k - 1 - i] && Earlier(r, x, before, ids[i]) {}
  }

  lemma PrefixIsSuffix(r: Rows, x: Id, before: int, newest: seq<Id>, k: nat)
    requires Recent(r, x, before, newest) && k <= |newest|
    ensures IsSuffix(r, x, before, Reversed(newest[..k]))
  {
    PrefixAscends(r, x, before, newest, k);
    if k > 0 {
      forall m | Earlier(r, x, before, m)
        ensures m in Reversed(newest[..k]) || r.messages[m].sequence < r.messages[newest[k - 1]].sequence
      {
        EarlierOrIn(r, x, before, newest, k, m);
      }
      assert Reversed(newest[..k])[0] == newest[k - 1];
    }
  }

  lemma EarlierOrIn(r: Rows, x: Id, before: int, newest: seq<Id>, k: nat, m: Id)
    requires Recent(r, x, before, newest) && 0 < k <= |newest| && Earlier(r, x, before, m)
    ensures m in Reversed(newest[..k]) || r.messages[m].sequence < r.messages[newest[k - 1]].sequence
  {
    if m in newest {
      var j :| 0 <= j < |newest| && newest[j] == m;
      if j < k { assert Reversed(newest[..k])[k - 1 - j] == m; }
    }
  }

  /** The longest run of last turns with at most 6 turns and 12000 characters. */
  ghost predicate IsWindow(r: Rows, x: Id, before: int, window: seq<Id>) {
    Fits(r, x, before, window) &&
    forall other | Fits(r, x, before, other) ::
      |other| <= |window| && other == window[|window| - |other|..]
  }

  lemma Longest(r: Rows, x: Id, before: int, newest: seq<Id>, i: nat, other: seq<Id>)
    requires Unique(r) && Recent(r, x, before, newest) && i <= |newest|
    requires i < |newest| ==> Total(r, Reversed(newest[..i + 1])) > WINDOW_CHARACTERS
    requires Fits(r, x, before, other)
    ensures var window := Reversed(newest[..i]);
      |other| <= |window| && other == window[|window| - |other|..]
  {
    var n := |other|;
    SuffixMirrors(r, x, before, newest, other, n);
    if i < n {
      assert Mirrors(newest, other, i + 1);
      MirrorsTotal(r, newest, other, i + 1);
    } else {
      assert Reversed(newest[..i])[i - n..] == other;
    }
  }

  lemma WindowIs(r: Rows, x: Id, before: int, newest: seq<Id>, i: nat)
    requires Unique(r) && Recent(r, x, before, newest) && i <= |newest|
    requires Total(r, Reversed(newest[..i])) <= WINDOW_CHARACTERS
    requires i < |newest| ==> Total(r, Reversed(newest[..i + 1])) > WINDOW_CHARACTERS
    ensures IsWindow(r, x, before, Reversed(newest[..i]))
  {
    PrefixIsSuffix(r, x, before, newest, i);
    forall other | Fits(r, x, before, other)
      ensures var window := Reversed(newest[..i]);
        |other| <= |window| && other == window[|window| - |other|..]
    {
      Longest(r, x, before, newest, i, other);
    }
  }

  lemma TotalNext(r: Rows, newest: seq<Id>, i: nat)
    requires i < |newest| && forall j :: 0 <= j < |newest| ==> newest[j] in r.messages
    ensures Total(r, Reversed(newest[..i + 1]))
              == Size(r.messages[newest[i]]) + Total(r, Reversed(newest[..i]))
  {
    assert Reversed(newest[..i + 1]) == [newest[i]] + Reversed(newest[..i]);
  }

  /** The loop of `request`: newest first, stopping at the first turn that does not fit. */
  method Window(r: Rows, x: Id, before: int, newest: seq<Id>) returns (window: seq<Id>)
    requires Unique(r) && Recent(r, x, before, newest)
    ensures IsWindow(r, x, before, window)
  {
    var history: seq<Id> := [];
    var remaining := WINDOW_CHARACTERS;
    var i := 0;
    while i < |newest|
      invariant 0 <= i <= |newest| && history == newest[..i]
      invariant remaining >= 0 && Total(r, Reversed(newest[..i])) == WINDOW_CHARACTERS - remaining
    {
      var size := Size(r.messages[newest[i]]);
      TotalNext(r, newest, i);
      if size > remaining { break; }
      history := history + [newest[i]];
      remaining := remaining - size;
      i := i + 1;
    }
    WindowIs(r, x, before, newest, i);
    return Reversed(history);
  }
}
