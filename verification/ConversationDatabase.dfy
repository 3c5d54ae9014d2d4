/** The conversation transactions as the service performs them, on tables updated in place. An error
    raised inside a transaction rolls back what it had already written. Each method is proved to have
    exactly the effect of the transaction function that the proofs over runs are about. */
module ConversationDatabase {
  import opened Options
  import opened TutorContract
  import opened ResponseValidator
  import opened ConversationRows

  /** Among finitely many completed turns one is the newest. */
  lemma {:induction false} NewestIn(rows: Rows, conversation: Id, among: set<Id>) returns (m: Id)
    requires among != {} && forall o :: o in among ==> IsCompleted(rows, o, conversation)
    ensures m in among && among <= rows.messages.Keys
    ensures forall o :: o in among ==> rows.messages[o].sequence <= rows.messages[m].sequence
  {
    var first :| first in among;
    var rest := among - {first};
    m := first;
    if rest != {} {
      var n := NewestIn(rows, conversation, rest);
      if rows.messages[m].sequence <= rows.messages[n].sequence {
        m := n;
      }
    }
    assert among == rest + {first};
  }

  lemma EvidenceMapNext(m: Id, items: seq<Evidence>, i: nat)
    requires i < |items|
    ensures EvidenceMap(m, items[..i + 1])
              == EvidenceMap(m, items[..i])[EvidenceKey(m, items[i].chunk) := items[i]]
  {
    assert items[..i + 1][..i] == items[..i];
  }

  predicate Stored(rows: Rows, message: Message, e: Evidence) {
    e.course == message.course && Some(e.corpus) == message.corpus &&
    e.chunk in rows.chunks && rows.chunks[e.chunk] == e
  }

  class Database {
    var now: Time
    var active: map<Id, Option<Id>>
    var corpora: map<Id, Id>
    var chunks: map<Id, Evidence>
    var conversations: map<Id, Conversation>
    var messages: map<Id, Message>
    var evidence: map<EvidenceKey, Evidence>
    var citations: map<Id, seq<Citation>>

    ghost function Contents(): Rows
      reads this
    {
      Rows(now, active, corpora, chunks, conversations, messages, evidence, citations)
    }

    constructor (start: Time)
      ensures Contents() == Rows(start, map[], map[], map[], map[], map[], map[], map[])
    {
      now := start;
      active, corpora, chunks, conversations := map[], map[], map[], map[];
      messages, evidence, citations := map[], map[], map[];
    }

    /** `_expire`: one UPDATE over the overdue rows, of one conversation or of all. */
    method Expire(conversation: Option<Id>)
      modifies this`messages
      ensures Contents() == ExpireTx(old(Contents()), conversation)
      // Nothing pending in the scope is past its deadline now, and all other messages are unchanged.
      ensures messages.Keys == old(messages.Keys)
      ensures forall m | m in messages && messages[m].state.Pending? &&
        (conversation.None? || messages[m].conversation == conversation.value) ::
          now < messages[m].deadline
      ensures forall m :: m in old(messages) && !Overdue(old(Contents()), m) ==>
        messages[m] == old(messages)[m]
    {
      messages := map m | m in messages ::
        if messages[m].state.Pending? && messages[m].deadline <= now &&
           (conversation.None? || messages[m].conversation == conversation.value)
        then messages[m].(state := MessageState.Failed, failureCode := Some(INTERRUPTED),
                          completedAt := Some(now))
        else messages[m];
    }

    // ----- the queries of `accept` -----

    method FindKey(conversation: Id, key: string) returns (known: Option<Id>)
      ensures known.Some? ==> HasKey(Contents(), known.value, conversation, key)
      ensures known.None? ==> forall m :: !HasKey(Contents(), m, conversation, key)
    {
      if m :| m in messages && messages[m].conversation == conversation && messages[m].key == key {
        assert HasKey(Contents(), m, conversation, key);
        return Some(m);
      }
      return None;
    }

    method FindPending(conversation: Id) returns (busy: bool)
      ensures busy <==> exists m | m in messages :: IsPending(Contents(), m, conversation)
    {
      busy := exists m | m in messages ::
        messages[m].conversation == conversation && messages[m].state.Pending?;
      if m :| m in messages && messages[m].conversation == conversation && messages[m].state.Pending? {
        assert IsPending(Contents(), m, conversation);
      }
    }

    /** ORDER BY sequence DESC LIMIT 1 over the completed turns. */
    method FindLatest(conversation: Id) returns (latest: Option<Id>)
      ensures IsLatest(Contents(), conversation, latest)
    {
      ghost var rows := Contents();
      var among := set m | m in messages && messages[m].conversation == conversation &&
                           messages[m].state.Completed?;
      if among == {} {
        assert forall m :: IsCompleted(rows, m, conversation) ==> m in among;
        return None;
      }
      assert forall m :: m in among ==> IsCompleted(rows, m, conversation);
      ghost var newest := NewestIn(rows, conversation, among);
      assert forall o :: o in among ==> messages[o].sequence <= messages[newest].sequence;
      var m :| m in among && forall o | o in among :: messages[o].sequence <= messages[m].sequence;
      assert forall o :: IsCompleted(rows, o, conversation) ==> o in among;
      return Some(m);
    }

    /** Kind, intent and retrieval query of a new turn. */
    method Decide(c: Config, conversation: Id, ask: Ask) returns (turn: Option<Turn>, latest: Option<Id>)
      ensures IsLatest(Contents(), conversation, latest)
      ensures turn == Classify(c, Contents(), conversation, ask, latest)
    {
      latest := FindLatest(conversation);
      var kind, intent, query := ask.kind, ask.intent, None;
      if kind.Action? {
        if ask.parent.None? || ask.parent.value !in messages { return None, latest; }
        var parent := messages[ask.parent.value];
        if parent.conversation != conversation || !parent.state.Completed? { return None, latest; }
        query := Some(if parent.retrievalQuery.Some? && parent.retrievalQuery.value != ""
                      then parent.retrievalQuery.value else parent.question);
      } else {
        if kind.QuestionTurn? && c.detect(ask.question).Some? {
          kind, intent := Followup, c.detect(ask.question);
        }
        if kind.Followup? && latest.Some? {
          var antecedent := messages[latest.value];
          if antecedent.mode != Some(Abstain) && antecedent.mode != Some(Clarify) {
            query := Some(if antecedent.retrievalQuery.Some? && antecedent.retrievalQuery.value != ""
                          then antecedent.retrievalQuery.value else antecedent.question);
          }
        }
      }
      return Some(Turn(kind, intent, query)), latest;
    }

    method Add(c: Config, conversation: Id, ask: Ask, id: Id, turn: Turn)
      requires conversation in conversations
      modifies this`messages, this`conversations
      ensures Contents() == Insert(c, old(Contents()), conversation, ask, id, turn)
    {
      var row := conversations[conversation];
      var corpus := if row.course in active then active[row.course] else None;
      messages := messages[id := Message(
        conversation, row.course, corpus, row.nextSequence, ask.key, ask.question, turn.kind,
        turn.intent, ask.parent, turn.query, now + c.timeout, Pending, None, None, None, None, None,
        None, None, None, None)];
      conversations := conversations[conversation := row.(nextSequence := row.nextSequence + 1)];
    }

    /** `accept`. The rows its two queries found are what the transaction function takes as given. */
    method Accept(c: Config, conversation: Id, ask: Ask, id: Id)
        returns (r: AcceptResult, known: Option<Id>, latest: Option<Id>)
      modifies this`messages, this`conversations
      ensures var expired := ExpireTx(old(Contents()), Some(conversation));
        && (known.Some? ==> HasKey(expired, known.value, conversation, ask.key))
        && (conversation in old(conversations) && known.None? ==>
              forall m :: !HasKey(expired, m, conversation, ask.key))
        && (r.Accepted? && r.created ==> IsLatest(expired, conversation, latest))
        && (Contents(), r) == AcceptTx(c, old(Contents()), conversation, ask, id, known, latest)
    {
      known, latest := None, None;
      if conversation !in conversations { return NotFound, known, latest; }
      var before := messages;
      Expire(Some(conversation));
      ghost var expired := Contents();
      known := FindKey(conversation, ask.key);
      if known.Some? {
        if messages[known.value].question != ask.question {
          messages := before;
          return KeyReused, known, latest;
        }
        return Accepted(known.value, false), known, latest;
      }
      var busy := FindPending(conversation);
      if busy {
        messages := before;
        return Busy, known, latest;
      }
      var turn;
      turn, latest := Decide(c, conversation, ask);
      if turn.None? {
        messages := before;
        return InvalidParent, known, latest;
      }
      if !Storable(ask.question) || turn.value.kind.Action? != ask.parent.Some? {
        messages := before;
        return Unstorable, known, latest;
      }
      Add(c, conversation, ask, id, turn.value);
      return Accepted(id, true), known, latest;
    }

    // ----- the execution of a turn -----

    /** `save_evidence`: the rows go in one by one, and one bad item takes all of them back. */
    method SaveEvidence(m: Id, items: seq<Evidence>) returns (failure: Option<string>)
      modifies this`evidence
      ensures (Contents(), failure) == SaveEvidenceTx(old(Contents()), m, items)
    {
      if m !in messages || !messages[m].state.Pending? || messages[m].deadline <= now {
        return Some(INTERRUPTED);
      }
      if |items| > 5 || exists x, y | 0 <= x < y < |items| :: items[x].chunk == items[y].chunk {
        return Some(SCOPE_INVALID);
      }
      var before := evidence;
      var ok := StoreAll(m, items);
      if !ok {
        evidence := before;
        return Some(SCOPE_INVALID);
      }
      assert EvidenceChecks(old(Contents()), messages[m], items);
      if exists e | e in items :: EvidenceKey(m, e.chunk) in before {
        evidence := before;                   // the primary key is checked when the rows are flushed
        return Some(PERSISTENCE);
      }
      return None;
    }

    method StoreAll(m: Id, items: seq<Evidence>) returns (ok: bool)
      requires m in messages
      modifies this`evidence
      ensures ok <==> forall e :: e in items ==> Stored(old(Contents()), messages[m], e)
      ensures ok ==> evidence == old(evidence) + EvidenceMap(m, items)
    {
      var message := messages[m];
      for i := 0 to |items|
        invariant evidence == old(evidence) + EvidenceMap(m, items[..i])
        invariant forall j :: 0 <= j < i ==> Stored(old(Contents()), message, items[j])
      {
        var item := items[i];
        if item.course != message.course || Some(item.corpus) != message.corpus ||
           item.chunk !in chunks || chunks[item.chunk] != item
        {
          assert item in items && !Stored(old(Contents()), message, item);
          return false;
        }
        EvidenceMapNext(m, items, i);
        evidence := evidence[EvidenceKey(m, item.chunk) := item];
      }
      assert items[..|items|] == items;
      return true;
    }

    /** `complete`: a citation of a chunk not saved for this turn, or cited twice, breaks a key. */
    method Complete(m: Id, draft: Draft) returns (failure: Option<string>)
      modifies this`messages, this`citations
      ensures (Contents(), failure) == CompleteTx(old(Contents()), m, draft)
    {
      if m !in messages || !messages[m].state.Pending? || messages[m].deadline <= now {
        return Some(INTERRUPTED);
      }
      var before := citations;
      var ok := Cite(m, draft.citations);
      if !ok {
        citations := before;
        return Some(PERSISTENCE);
      }
      var message := messages[m];
      message := message.(answer := Some(draft.answer));
      message := message.(mode := Some(draft.mode));
      message := message.(grounded := Some(draft.grounded));
      if draft.intervention.Some? {
        var i := draft.intervention.value;
        message := message.(intervention := Some(i));
        message := message.(contract := Some(i.version));
        message := message.(situation := Some(i.situation));
        message := message.(helpLevel := Some(HelpLevel(i.blocks)));
      }
      message := message.(state := MessageState.Completed);
      message := message.(completedAt := Some(now));
      messages := messages[m := message];
      return None;
    }

    method Cite(m: Id, drafted: seq<Citation>) returns (ok: bool)
      modifies this`citations
      ensures ok <==> Distinct(Chunks(drafted)) &&
                      forall c :: c in drafted ==> EvidenceKey(m, c.chunk) in evidence
      ensures ok ==> citations == old(citations)[m := drafted]
    {
      citations := citations[m := []];
      for i := 0 to |drafted|
        invariant citations == old(citations)[m := drafted[..i]]
        invariant forall x, y :: 0 <= x < y < i ==> Chunks(drafted)[x] != Chunks(drafted)[y]
        invariant forall x :: 0 <= x < i ==> EvidenceKey(m, drafted[x].chunk) in evidence
      {
        var citation := drafted[i];
        if EvidenceKey(m, citation.chunk) !in evidence {
          assert citation in drafted;
          return false;
        }
        if x :| 0 <= x < i && drafted[x].chunk == citation.chunk {
          assert Chunks(drafted)[x] == Chunks(drafted)[i];
          return false;
        }
        citations := citations[m := citations[m] + [citation]];
        assert drafted[..i + 1] == drafted[..i] + [citation];
      }
      assert drafted[..|drafted|] == drafted;
      return true;
    }

    method Fail(m: Id, code: string)
      modifies this`messages
      ensures Contents() == FailTx(old(Contents()), m, code)
      // It is not pending any more; an outcome that is already there stays, and so do the others.
      ensures m in messages ==> !messages[m].state.Pending?
      ensures forall o :: o in old(messages) && (o != m || !old(messages)[o].state.Pending?) ==>
        o in messages && messages[o] == old(messages)[o]
    {
      if m in messages && messages[m].state.Pending? {
        messages := messages[m := messages[m].(state := MessageState.Failed, failureCode := Some(code),
                                               completedAt := Some(now))];
      }
    }
  }
}
