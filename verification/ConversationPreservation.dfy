/** Every step keeps the conversation invariant and what never changes. */
module ConversationPreservation {
  import opened Options
  import opened Text
  import opened TutorContract
  import opened ResponseValidator
  import opened ConversationRows
  import opened ConversationSystem
  import opened ConversationInvariant

  lemma GrowsRefl(r: Rows)
    ensures Grows(r, r)
  {
  }

  // ----- transactions that only settle pending messages -----

  /** Messages keep their turn; pending ones may become terminal with a proper outcome. */
  ghost predicate Settles(r: Rows, r': Rows) {
    && r' == r.(messages := r'.messages, citations := r'.citations)
    && r'.messages.Keys == r.messages.Keys
    && (forall m {:trigger MessageKept(r, r', m)} | m in r.messages :: MessageKept(r, r', m))
    && (forall m {:trigger Outcome(r', m)} | m in r.messages :: Outcome(r', m))
    && (forall m | m in r'.citations :: m in r.citations || CitationsOk(r', m))
    && (forall m | m in r.citations :: m in r'.citations)
  }

  lemma SettlesMessages(r: Rows, r': Rows)
    requires RowsInv(r) && Settles(r, r')
    ensures MessagesOk(r')
  {
    forall m | m in r'.messages ensures Scoped(r', m) && Outcome(r', m) && Flattened(r', m) {
      assert Scoped(r, m) && Flattened(r, m) && MessageKept(r, r', m) && Outcome(r', m);
      if r'.messages[m].retrievalQuery.Some? {
        var a :| IsAntecedent(r, r.messages[m], a);
        assert MessageKept(r, r', a);
        assert IsAntecedent(r', r'.messages[m], a);
      }
    }
  }

  lemma SettlesSources(r: Rows, r': Rows)
    requires RowsInv(r) && Settles(r, r')
    ensures SourcesOk(r')
  {
    forall k | k in r'.chunks ensures ChunkOk(r', k) { assert ChunkOk(r, k); }
    forall k | k in r'.evidence ensures EvidenceOk(r', k) {
      assert EvidenceOk(r, k) && MessageKept(r, r', k.message);
    }
    forall m | m in r'.citations ensures CitationsOk(r', m) {
      if m in r.citations {
        assert CitationsOk(r, m) && MessageKept(r, r', m);
      }
    }
  }

  lemma SettlesUnique(r: Rows, r': Rows)
    requires RowsInv(r) && Settles(r, r')
    ensures Unique(r')
    ensures forall x :: x in r'.conversations ==> Gapless(r', x)
  {
    forall x, m, o | IsPending(r', m, x) && IsPending(r', o, x) ensures m == o {
      assert MessageKept(r, r', m) && MessageKept(r, r', o);
      assert IsPending(r, m, x) && IsPending(r, o, x);
    }
    forall x, n, m, o | AtSequence(r', x, n, m) && AtSequence(r', x, n, o) ensures m == o {
      assert MessageKept(r, r', m) && MessageKept(r, r', o);
      assert AtSequence(r, x, n, m) && AtSequence(r, x, n, o);
    }
    forall x, key, m, o | HasKey(r', m, x, key) && HasKey(r', o, x, key) ensures m == o {
      assert MessageKept(r, r', m) && MessageKept(r, r', o);
      assert HasKey(r, m, x, key) && HasKey(r, o, x, key);
    }
    forall x | x in r'.conversations ensures Gapless(r', x) {
      assert Gapless(r, x);
      forall n | 1 <= n < r'.conversations[x].nextSequence ensures Filled(r', x, n) {
        assert Filled(r, x, n);
        var m :| AtSequence(r, x, n, m);
        assert MessageKept(r, r', m);
        assert AtSequence(r', x, n, m);
      }
    }
  }

  lemma SettlesSafe(r: Rows, r': Rows)
    requires RowsInv(r) && Settles(r, r')
    ensures RowsInv(r') && Grows(r, r')
  {
    SettlesMessages(r, r');
    SettlesSources(r, r');
    SettlesUnique(r, r');
  }

  lemma ExpireSafe(r: Rows, x: Option<Id>)
    requires RowsInv(r)
    ensures RowsInv(ExpireTx(r, x)) && Grows(r, ExpireTx(r, x))
  {
    var r' := ExpireTx(r, x);
    forall m | m in r.messages ensures MessageKept(r, r', m) && Outcome(r', m) {
      assert Scoped(r, m) && Outcome(r, m);
    }
    SettlesSafe(r, r');
  }

  lemma FailSafe(r: Rows, m: Id, code: string)
    requires RowsInv(r)
    ensures RowsInv(FailTx(r, m, code)) && Grows(r, FailTx(r, m, code))
  {
    var r' := FailTx(r, m, code);
    if r' == r { GrowsRefl(r); return; }
    assert Outcome(r, m);
    forall o | o in r.messages ensures MessageKept(r, r', o) && Outcome(r', o) {
      assert Outcome(r, o);
    }
    SettlesSafe(r, r');
  }

  lemma CompletedOutcome(r: Rows, m: Id, draft: Draft, evidence: seq<Evidence>)
    requires RowsInv(r) && TaskOk(r, m, Completing(draft, evidence)) && Live(r, m)
    ensures var message := AsCompleted(r, r.messages[m], draft);
      && Agrees(message, draft.citations) && SameTurn(r.messages[m], message)
      && (NeedsAntecedent(message) ==> message.mode == Some(Clarify))
      && message.failureCode.None? && message.completedAt == Some(r.now) && r.now < message.deadline
      && message.answer.Some? && message.mode.Some? && message.grounded.Some?
  {
    assert Outcome(r, m);
    ClarificationAccepted(c => c, RequestOf(r.messages[m], evidence));
  }

  lemma CompleteSafe(r: Rows, m: Id, draft: Draft, evidence: seq<Evidence>)
    requires RowsInv(r) && TaskOk(r, m, Completing(draft, evidence))
    ensures RowsInv(CompleteTx(r, m, draft).0) && Grows(r, CompleteTx(r, m, draft).0)
  {
    var (r', failure) := CompleteTx(r, m, draft);
    if failure.Some? { GrowsRefl(r); return; }
    CompletedOutcome(r, m, draft, evidence);
    CompleteSettles(r, m, draft, evidence);
    SettlesSafe(r, r');
  }

  lemma CompleteSettles(r: Rows, m: Id, draft: Draft, evidence: seq<Evidence>)
    requires RowsInv(r) && TaskOk(r, m, Completing(draft, evidence))
    requires CompleteTx(r, m, draft).1.None? && SameTurn(r.messages[m], AsCompleted(r, r.messages[m], draft))
    requires Outcome(CompleteTx(r, m, draft).0, m)
    ensures Settles(r, CompleteTx(r, m, draft).0)
  {
    var r' := CompleteTx(r, m, draft).0;
    assert Outcome(r, m);
    forall o | o in r.messages ensures MessageKept(r, r', o) && Outcome(r', o) {
      if o != m { assert Outcome(r, o); }
    }
    CitesSaved(r, m, draft, evidence);
    forall c | c in draft.citations ensures Cited(r', m, c) { assert Cited(r, m, c); }
    assert CitationsOk(r', m);
  }

  /** What the validator admitted against the saved evidence is cited verbatim from it. */
  lemma CitesSaved(r: Rows, m: Id, draft: Draft, evidence: seq<Evidence>)
    requires TaskOk(r, m, Completing(draft, evidence))
    ensures forall c :: c in draft.citations ==> Cited(r, m, c)
  {
    forall c | c in draft.citations ensures Cited(r, m, c) {
      assert Quotes(evidence, c);
      var e :| e in evidence && e.chunk == c.chunk && Contains(e.content, c.quote);
    }
  }

  // ----- accepting a turn -----

  /** The query a turn is stored with is some earlier completed question, never itself derived. */
  lemma ResolvedFlat(r: Rows, x: Id, a: Id, message: Message)
    requires RowsInv(r) && IsCompleted(r, a, x) && x in r.conversations
    requires message.conversation == x && message.sequence == r.conversations[x].nextSequence
    requires message.retrievalQuery == Some(Resolved(r.messages[a]))
    ensures exists b :: IsAntecedent(r, message, b)
  {
    assert Scoped(r, a) && Flattened(r, a);
    if r.messages[a].retrievalQuery.Some? {
      var b :| IsAntecedent(r, r.messages[a], b);
      assert Scoped(r, b);
      StorableNotEmpty(r.messages[b].question);
      assert IsAntecedent(r, message, b);
    } else {
      assert IsAntecedent(r, message, a);
    }
  }

  lemma StorableNotEmpty(question: string)
    requires Storable(question)
    ensures question != ""
  {
  }

  predicate Insertable(c: Config, r: Rows, x: Id, ask: Ask, id: Id, turn: Turn) {
    x in r.conversations && id !in r.messages && id !in r.citations && Storable(ask.question)
  }

  lemma InsertFlat(c: Config, r: Rows, x: Id, ask: Ask, id: Id, turn: Turn, latest: Option<Id>)
    requires RowsInv(r) && Insertable(c, r, x, ask, id, turn) && IsLatest(r, x, latest)
    requires Classify(c, r, x, ask, latest) == Some(turn)
    ensures Flattened(Insert(c, r, x, ask, id, turn), id)
  {
    var r' := Insert(c, r, x, ask, id, turn);
    var message := r'.messages[id];
    if turn.query.Some? {
      var a := if ask.kind.Action? then ask.parent.value else latest.value;
      assert turn.query == Some(Resolved(r.messages[a]));
      ResolvedFlat(r, x, a, message);
      var b :| IsAntecedent(r, message, b);
      assert IsAntecedent(r', message, b);
    }
  }

  lemma InsertMessages(c: Config, r: Rows, x: Id, ask: Ask, id: Id, turn: Turn)
    requires RowsInv(r) && Insertable(c, r, x, ask, id, turn)
    requires Flattened(Insert(c, r, x, ask, id, turn), id)
    ensures MessagesOk(Insert(c, r, x, ask, id, turn))
  {
    var r' := Insert(c, r, x, ask, id, turn);
    assert Gapless(r, x);
    forall m | m in r'.messages ensures Scoped(r', m) && Outcome(r', m) && Flattened(r', m) {
      if m != id {
        assert Scoped(r, m) && Outcome(r, m) && Flattened(r, m);
        if r.messages[m].retrievalQuery.Some? {
          var a :| IsAntecedent(r, r.messages[m], a);
          assert IsAntecedent(r', r'.messages[m], a);
        }
      }
    }
  }

  lemma InsertSources(c: Config, r: Rows, x: Id, ask: Ask, id: Id, turn: Turn)
    requires SourcesOk(r) && Insertable(c, r, x, ask, id, turn)
    ensures SourcesOk(Insert(c, r, x, ask, id, turn))
  {
    var r' := Insert(c, r, x, ask, id, turn);
    forall k | k in r'.chunks ensures ChunkOk(r', k) { assert ChunkOk(r, k); }
    forall k | k in r'.evidence ensures EvidenceOk(r', k) { assert EvidenceOk(r, k); }
    forall m | m in r'.citations ensures CitationsOk(r', m) {
      assert CitationsOk(r, m);
      forall d | d in r'.citations[m] ensures Cited(r', m, d) { assert Cited(r, m, d); }
    }
  }

  lemma InsertUnique(c: Config, r: Rows, x: Id, ask: Ask, id: Id, turn: Turn)
    requires RowsInv(r) && Insertable(c, r, x, ask, id, turn)
    requires forall m :: !IsPending(r, m, x) && !HasKey(r, m, x, ask.key)
    ensures Unique(Insert(c, r, x, ask, id, turn))
  {
    var r' := Insert(c, r, x, ask, id, turn);
    forall y, m, o | IsPending(r', m, y) && IsPending(r', o, y) ensures m == o {
      if m != id { assert IsPending(r, m, y); }
      if o != id { assert IsPending(r, o, y); }
    }
    forall y, n, m, o | AtSequence(r', y, n, m) && AtSequence(r', y, n, o) ensures m == o {
      if m != id { assert AtSequence(r, y, n, m) && Scoped(r, m); }
      if o != id { assert AtSequence(r, y, n, o) && Scoped(r, o); }
    }
    forall y, key, m, o | HasKey(r', m, y, key) && HasKey(r', o, y, key) ensures m == o {
      if m != id { assert HasKey(r, m, y, key); }
      if o != id { assert HasKey(r, o, y, key); }
    }
  }

  lemma InsertGapless(c: Config, r: Rows, x: Id, ask: Ask, id: Id, turn: Turn, y: Id)
    requires RowsInv(r) && Insertable(c, r, x, ask, id, turn) && y in r.conversations
    ensures Gapless(Insert(c, r, x, ask, id, turn), y)
  {
    var r' := Insert(c, r, x, ask, id, turn);
    assert Gapless(r, y);
    forall n | 1 <= n < r'.conversations[y].nextSequence ensures Filled(r', y, n) {
      if n < r.conversations[y].nextSequence {
        assert Filled(r, y, n);
        var m :| AtSequence(r, y, n, m);
        assert AtSequence(r', y, n, m);
      } else {
        assert AtSequence(r', y, n, id);
      }
    }
  }

  lemma InsertSafe(c: Config, r: Rows, x: Id, ask: Ask, id: Id, turn: Turn, latest: Option<Id>)
    requires RowsInv(r) && Insertable(c, r, x, ask, id, turn) && IsLatest(r, x, latest)
    requires Classify(c, r, x, ask, latest) == Some(turn)
    requires forall m :: !IsPending(r, m, x) && !HasKey(r, m, x, ask.key)
    ensures RowsInv(Insert(c, r, x, ask, id, turn)) && Grows(r, Insert(c, r, x, ask, id, turn))
  {
    var r' := Insert(c, r, x, ask, id, turn);
    InsertFlat(c, r, x, ask, id, turn, latest);
    InsertMessages(c, r, x, ask, id, turn);
    InsertSources(c, r, x, ask, id, turn);
    InsertUnique(c, r, x, ask, id, turn);
    forall y | y in r'.conversations ensures Gapless(r', y) {
      InsertGapless(c, r, x, ask, id, turn, y);
    }
    forall m | m in r.messages ensures MessageKept(r, r', m) {}
  }

  lemma GrowsTransitive(a: Rows, b: Rows, d: Rows)
    requires Grows(a, b) && Grows(b, d)
    ensures Grows(a, d)
  {
    forall m | m in a.messages ensures MessageKept(a, d, m) {
      assert MessageKept(a, b, m) && MessageKept(b, d, m);
    }
  }

  lemma AcceptSafe(c: Config, r: Rows, x: Id, ask: Ask, id: Id, known: Option<Id>,
                   latest: Option<Id>)
    requires RowsInv(r) && id !in r.messages && id !in r.citations
    requires known.Some? ==> HasKey(ExpireTx(r, Some(x)), known.value, x, ask.key)
    requires known.None? ==> forall m :: !HasKey(ExpireTx(r, Some(x)), m, x, ask.key)
    requires IsLatest(ExpireTx(r, Some(x)), x, latest)
    ensures var r' := AcceptTx(c, r, x, ask, id, known, latest).0; RowsInv(r') && Grows(r, r')
  {
    var (r', result) := AcceptTx(c, r, x, ask, id, known, latest);
    var expired := ExpireTx(r, Some(x));
    ExpireSafe(r, Some(x));
    if result.Accepted? && result.created {
      var turn := Classify(c, expired, x, ask, latest).value;
      forall m ensures !IsPending(expired, m, x) {}
      InsertSafe(c, expired, x, ask, id, turn, latest);
      GrowsTransitive(r, expired, r');
    } else {
      GrowsRefl(r);
    }
  }

  // ----- evidence, corpora and conversations -----

  lemma {:induction false} EvidenceMapHas(m: Id, evidence: seq<Evidence>)
    requires forall a, b :: 0 <= a < b < |evidence| ==> evidence[a].chunk != evidence[b].chunk
    ensures forall k :: k in EvidenceMap(m, evidence) ==>
      k.message == m && EvidenceMap(m, evidence)[k] in evidence &&
      EvidenceMap(m, evidence)[k].chunk == k.chunk
    ensures forall e :: e in evidence ==>
      EvidenceKey(m, e.chunk) in EvidenceMap(m, evidence) &&
      EvidenceMap(m, evidence)[EvidenceKey(m, e.chunk)] == e
  {
    var n := |evidence|;
    if n > 0 {
      var init := evidence[..n - 1];
      EvidenceMapHas(m, init);
      forall e | e in evidence
        ensures EvidenceKey(m, e.chunk) in EvidenceMap(m, evidence)
        ensures EvidenceMap(m, evidence)[EvidenceKey(m, e.chunk)] == e
      {
        var i :| 0 <= i < n && evidence[i] == e;
        if i < n - 1 { assert init[i] == e; }
      }
    }
  }

  lemma SaveSafe(r: Rows, m: Id, evidence: seq<Evidence>)
    requires RowsInv(r)
    ensures var (r', failure) := SaveEvidenceTx(r, m, evidence);
      RowsInv(r') && (failure.None? ==> Saved(r', m, evidence)) && r'.messages == r.messages &&
      (forall k :: k in r.evidence ==> k in r'.evidence && r'.evidence[k] == r.evidence[k]) &&
      Grows(r, r')
  {
    var (r', failure) := SaveEvidenceTx(r, m, evidence);
    if failure.Some? { GrowsRefl(r); return; }
    EvidenceMapHas(m, evidence);
    forall k | k in EvidenceMap(m, evidence) ensures k !in r.evidence {
      assert k == EvidenceKey(m, EvidenceMap(m, evidence)[k].chunk);
    }
    forall k | k in r'.evidence ensures EvidenceOk(r', k) {
      if k in r.evidence { assert EvidenceOk(r, k); } else { assert EvidenceMap(m, evidence)[k] in evidence; }
    }
    SourcesOnly(r, r');
  }

  /** Frame for steps that only add chunks, corpora, evidence or activations. */
  lemma SourcesOnly(r: Rows, r': Rows)
    requires RowsInv(r)
    requires r' == r.(now := r'.now, active := r'.active, corpora := r'.corpora,
                      chunks := r'.chunks, evidence := r'.evidence) && r.now <= r'.now
    requires forall k :: k in r.corpora ==> k in r'.corpora && r'.corpora[k] == r.corpora[k]
    requires forall k :: k in r.chunks ==> k in r'.chunks && r'.chunks[k] == r.chunks[k]
    requires forall k :: k in r.evidence ==> k in r'.evidence && r'.evidence[k] == r.evidence[k]
    requires forall k :: k in r'.chunks ==> k in r.chunks || ChunkOk(r', k)
    requires forall k :: k in r'.evidence ==> k in r.evidence || EvidenceOk(r', k)
    requires forall x :: x in r'.active && r'.active[x].Some? ==>
      r'.active[x].value in r'.corpora && r'.corpora[r'.active[x].value] == x
    ensures RowsInv(r') && Grows(r, r')
  {
    forall m | m in r'.messages ensures Scoped(r', m) && Outcome(r', m) && Flattened(r', m) {
      assert Scoped(r, m) && Outcome(r, m) && Flattened(r, m);
      if r.messages[m].retrievalQuery.Some? {
        var a :| IsAntecedent(r, r.messages[m], a);
        assert IsAntecedent(r', r'.messages[m], a);
      }
    }
    SourcesFrame(r, r');
    UniqueFrame(r, r');
    forall m | m in r.messages ensures MessageKept(r, r', m) {}
  }

  lemma SourcesFrame(r: Rows, r': Rows)
    requires SourcesOk(r) && r'.messages == r.messages && r'.citations == r.citations
    requires forall k :: k in r.corpora ==> k in r'.corpora && r'.corpora[k] == r.corpora[k]
    requires forall k :: k in r.chunks ==> k in r'.chunks && r'.chunks[k] == r.chunks[k]
    requires forall k :: k in r.evidence ==> k in r'.evidence && r'.evidence[k] == r.evidence[k]
    requires forall k :: k in r'.chunks ==> k in r.chunks || ChunkOk(r', k)
    requires forall k :: k in r'.evidence ==> k in r.evidence || EvidenceOk(r', k)
    requires forall x :: x in r'.active && r'.active[x].Some? ==>
      r'.active[x].value in r'.corpora && r'.corpora[r'.active[x].value] == x
    ensures SourcesOk(r')
  {
    forall k | k in r'.chunks ensures ChunkOk(r', k) {
      if k in r.chunks { assert ChunkOk(r, k); }
    }
    forall k | k in r'.evidence ensures EvidenceOk(r', k) {
      if k in r.evidence { assert EvidenceOk(r, k); }
    }
    forall m | m in r'.citations ensures CitationsOk(r', m) {
      assert CitationsOk(r, m);
      forall d | d in r'.citations[m] ensures Cited(r', m, d) { assert Cited(r, m, d); }
    }
  }

  lemma UniqueFrame(r: Rows, r': Rows)
    requires Unique(r) && r'.messages == r.messages
    requires forall x {:trigger Gapless(r, x)} | x in r.conversations :: Gapless(r, x)
    requires r'.conversations == r.conversations
    ensures Unique(r')
    ensures forall x {:trigger Gapless(r', x)} | x in r'.conversations :: Gapless(r', x)
  {
    forall x, m, o | IsPending(r', m, x) && IsPending(r', o, x) ensures m == o {
      assert IsPending(r, m, x) && IsPending(r, o, x);
    }
    forall x, n, m, o | AtSequence(r', x, n, m) && AtSequence(r', x, n, o) ensures m == o {
      assert AtSequence(r, x, n, m) && AtSequence(r, x, n, o);
    }
    forall x, key, m, o | HasKey(r', m, x, key) && HasKey(r', o, x, key) ensures m == o {
      assert HasKey(r, m, x, key) && HasKey(r, o, x, key);
    }
    forall x | x in r'.conversations ensures Gapless(r', x) {
      assert Gapless(r, x);
      forall n | 1 <= n < r'.conversations[x].nextSequence ensures Filled(r', x, n) {
        assert Filled(r, x, n);
        var m :| AtSequence(r, x, n, m);
        assert AtSequence(r', x, n, m);
      }
    }
  }

  lemma CreateConversationSafe(r: Rows, id: Id, course: Id)
    requires RowsInv(r) && id !in r.conversations
    ensures var r' := r.(conversations := r.conversations[id := Conversation(course, 1)]);
      RowsInv(r') && Grows(r, r')
  {
    var r' := r.(conversations := r.conversations[id := Conversation(course, 1)]);
    forall m | m in r'.messages ensures Scoped(r', m) && Outcome(r', m) && Flattened(r', m) {
      assert Scoped(r, m) && Outcome(r, m) && Flattened(r, m);
      if r.messages[m].retrievalQuery.Some? {
        var a :| IsAntecedent(r, r.messages[m], a);
        assert IsAntecedent(r', r'.messages[m], a);
      }
    }
    SourcesFrame(r, r');
    var s := r'.(conversations := r.conversations);
    UniqueFrame(r, s);
    forall x, m, o | IsPending(r', m, x) && IsPending(r', o, x) ensures m == o {
      assert IsPending(r, m, x) && IsPending(r, o, x);
    }
    forall x, n, m, o | AtSequence(r', x, n, m) && AtSequence(r', x, n, o) ensures m == o {
      assert AtSequence(r, x, n, m) && AtSequence(r, x, n, o);
    }
    forall x, key, m, o | HasKey(r', m, x, key) && HasKey(r', o, x, key) ensures m == o {
      assert HasKey(r, m, x, key) && HasKey(r, o, x, key);
    }
    forall x | x in r'.conversations ensures Gapless(r', x) {
      if x != id {
        assert Gapless(r, x);
        forall n | 1 <= n < r'.conversations[x].nextSequence ensures Filled(r', x, n) {
          assert Filled(r, x, n);
          var m :| AtSequence(r, x, n, m);
          assert AtSequence(r', x, n, m);
        }
      }
    }
    forall m | m in r.messages ensures MessageKept(r, r', m) {}
  }
}
