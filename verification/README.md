# Verified model of Docta's core protocols

Docta is a tutoring service. Teachers upload PDFs, a worker turns each into an immutable corpus of
chunks, and students ask questions that are answered only with verbatim citations of the corpus that
was active when they asked. This project models the parts of it whose correctness depends on order,
on crashes or on exact text, and proves what they promise. `dafny verify dfyconfig.toml` checks all of
it; nothing here executes the original.

## What is modelled

**Durable ingestion** (`Ingestion*.dfy`). A transactional outbox, a relay with publish tokens, an
at-least-once stream that can be lost, workers with leases and fencing tokens, bounded retries, dead
letters and reconciliation. `IngestionRows` has the database rows and one function per transaction,
`IngestionDatabase` a class that performs the same transactions in place, proved equal to those
functions. `IngestionSystem` interleaves every party: each transaction is one step; publishing is
select, add to the stream, mark; a worker receives, claims, persists and acknowledges. Workers and
relays crash, deliveries are repeated, reordered, forged or lost, time passes. `IngestionInvariant` and
`IngestionPreservation` prove the invariant of every step, `IngestionRuns` the safety theorems over
whole runs, `IngestionEffects` what each transaction leaves in every row, branch by branch,
`IngestionRelay` where a PUBLISHED mark comes from, `IngestionProgress` that every job can be brought to
an end, and `IngestionTicks` that one live worker process brings all of them to an end merely by
repeating its tick: reconcile if due, publish one event, take one delivery.

**Conversation turns** (`Conversation*.dfy`). Accepting a question, executing it step by step, saving
evidence, completing, failing and expiring, interleaved with activation of corpora, the reaper and
crashes of the process; `ConversationDatabase` is the service on tables updated in place, with
rollback. `ConversationEffects` tells what each transaction leaves in every row, and
`ConversationExecution` the outcome of a whole execution for any retriever and any model.
`ResponseValidator` and `TutorContract` are the gate between model output and database,
`ResponseVerdict` tells its verdict on every draft over positions in the evidence, and
`ConversationHistory` is paging (server and client) and the window of earlier turns.

**Algorithms.** `Chunking` (overlapping segmentation), `Tsquery` (quoting and reading lexemes) with
`TsqueryGrammar` (its two patterns as a grammar and a scan), `EventStream` (printing and incremental
reading of server-sent events, framed as in section 9.2 of the WHATWG HTML Standard) with `EventBlocks`
(the same reading without its loops), `LinearSequence` (recognising a Hamiltonian path), `Provisioner` (creations
with unknown outcome) and `LegacyImport` (crash-ordered publication, fingerprint).

Random identifiers are taken from a counter of unused ones, and times are microseconds of one
monotone database clock. Hashes, the case folding of regular expressions, the detection of follow-up
phrases, PDF parsing, retrieval, embeddings and the language model are parameters or arbitrary
answers; `FoldKeepsSpace`, needed only for idempotence, says that case folding never turns whitespace
into something else. Strings are sequences of characters; in the stream reader, whose limit counts
UTF-16 code units, a character stands for one code unit.

## What the proofs found

- `build_chunks` keeps every character only if the window size is at least 1. With size 0 it would
  skip all text; the settings forbid that. `Chunking.LosesNothingIff` has the exact condition.
- `readEvents` compares its limit with the unfinished block plus the whole new chunk, so frames far
  below the limit can still be refused: any printed text longer than the limit is, when it arrives in
  one chunk (`EventStream.TooMuchAtOnce`), for example enough heartbeats
  (`EventStream.FrameLimitNotEnough`). The stream comes through if and only if each chunk fits behind
  the unfinished block (`EventStream.RoundTrip`), and always if chunks leave room for the longest frame
  (`EventStream.SmallChunksRead`).
- `readEvents` normalises line ends chunk by chunk. That is the same as normalising the whole text, for
  every cut of it, if and only if no carriage return is doubled before a line feed in it
  (`EventStream.ResumesIff`). Where one is, the callbacks can depend on the cut: a text that is one
  event when it arrives whole is none when it is cut after that line feed
  (`EventStream.MixedReturnsDepend`). The server never prints a carriage return.
- The documentation string of `_query_lexemes` speaks of stemmed lexemes; the round trip holds for any
  strings, also with line breaks in them, although the dot of its pattern does not match a line feed.

## Model

| member | source | states |
|---|---|---|
| IngestionPreservation.StepInv | apps/api/src/docta_api/ingestion.py:203-449 | Every step of every party keeps the joint invariant of versions, jobs, events, corpora, relays and workers. |
| IngestionRuns.JointLifecycle | apps/api/src/docta_api/ingestion.py:221-282 | In every reachable state: awaiting upload iff no job; PENDING iff QUEUED, RUNNING iff PROCESSING iff leased, SUCCEEDED iff INDEXED iff one READY corpus, FAILED iff one dead event; attempts bounded; the fence is the attempt, plus one only after exhaustion. |
| IngestionRuns.IndexedIntegrity | apps/api/src/docta_api/ingestion.py:376-402 | An INDEXED version has exactly one corpus, of its course and pipeline, not empty, with one vector for each chunk if any, built from an object with the confirmed size and checksum. |
| IngestionRuns.OneOfEach | apps/api/src/docta_api/documents.py:206-251 | However often uploads are created and confirmed: one version per course and key, one job per version, at most one corpus linked to it. |
| IngestionRuns.ActiveIsReady | apps/api/src/docta_api/documents.py:401-424 | The active corpus of a course is always a READY corpus of that course. |
| IngestionRuns.NeverInconsistent | apps/api/src/docta_api/ingestion.py:251-398 | The errors "could not enter PROCESSING", "no immutable storage version", "embedding count mismatch" and "could not enter INDEXED" are unreachable. |
| IngestionRuns.TerminalForever | apps/api/src/docta_api/ingestion.py:221-222 | A terminal job and its version never change again. |
| IngestionRuns.ExactlyOnce | apps/api/src/docta_api/ingestion.py:284-307 | A job is SUCCEEDED iff one earlier step committed it, and no two steps commit the same job, under any repetition of deliveries. |
| IngestionRuns.AtMostOneCommit | apps/api/src/docta_api/ingestion.py:295-307 | Two committing steps of a job are the same step. |
| IngestionRuns.CommitEffect | apps/api/src/docta_api/ingestion.py:115-131 | The committing step of a run stores exactly the parser's pages and chunks and the embedder's vectors, or no vectors without an embedder, after an object of the confirmed size and checksum. |
| IngestionRuns.LaterGrantFences | apps/api/src/docta_api/ingestion.py:246-249 | Fences strictly increase from grant to grant, and a superseded claim never holds again. |
| IngestionRuns.WritesOnlyWhileHolding | apps/api/src/docta_api/ingestion.py:411-423 | A worker changes rows after its claim only under its own live lease and fence, while no other worker in flight could. |
| IngestionRuns.StaleSuccessIsSilent | apps/api/src/docta_api/ingestion.py:306-307 | A success refused by the fence is not turned into a recorded failure by the exception handler that follows. |
| IngestionEffects.FailureMeans | apps/api/src/docta_api/ingestion.py:411-449 | While the lease is held: a transient failure with attempts left makes the job PENDING, its version QUEUED and its event available after the delay; any other makes the job FAILED with a dead letter and the version what the failure says. Otherwise nothing changes. |
| IngestionEffects.FailsForCause | apps/api/src/docta_api/ingestion.py:425-436 | In every run, an attempt that fails its job had a permanent cause, or it was the last one allowed. |
| IngestionEffects.PersistMeans | apps/api/src/docta_api/ingestion.py:98-163 | Which end a held attempt comes to, from the answers of storage, parser and embedder alone. |
| IngestionEffects.SuccessMeans | apps/api/src/docta_api/ingestion.py:295-402 | A held success leaves exactly one new READY corpus with these pages, chunks and vectors, the version INDEXED with its counts, the job SUCCEEDED, and nothing else changed. |
| IngestionEffects.ClaimMeans | apps/api/src/docta_api/ingestion.py:203-282 | For every envelope: when it is refused, exhausts the job or starts an attempt, the exact lease and fence granted, and what the claim carries. |
| IngestionEffects.CreateMeans | apps/api/src/docta_api/documents.py:204-257 | When an upload is created, known, refused as another request, or no longer open; and the new version's columns. |
| IngestionEffects.ConfirmMeans | apps/api/src/docta_api/documents.py:299-344 | When a confirmation is the first, a repetition, or refused; and the rows that the first one leaves. |
| IngestionEffects.SelectMeans | apps/api/src/docta_api/jobs.py:143-175 | A selected event is under its token for 30 seconds, and no other event changes. |
| IngestionEffects.ReconcileMeans | apps/api/src/docta_api/jobs.py:197-219 | Exactly the events published too long ago of jobs that are due or under an expired lease become available at once. |
| IngestionEffects.DecideMeans | apps/api/src/docta_api/ingestion.py:198-201 | A delivery is given up for acknowledgement iff its job exists and nobody is at work on it. |
| IngestionRelay.PublishedWasAdded | apps/api/src/docta_api/jobs.py:143-189 | Whenever an event is marked published, one relay selected it, then added it to the stream, then marked it, and no retry or reconciliation asked for it again since the selection. |
| IngestionRelay.MarkNeedsToken | apps/api/src/docta_api/jobs.py:179-187 | Only a mark under the token that the event still carries publishes it. |
| IngestionRelay.LostTokenMarksNothing | apps/api/src/docta_api/jobs.py:179-187 | A relay whose token is gone changes no row. |
| IngestionRelay.ResetWithdraws | apps/api/src/docta_api/jobs.py:41-54 | A scheduled retry or a reconciliation withdraws mark, token and lease. |
| IngestionProgress.NoJobStranded | apps/api/src/docta_api/jobs.py:191-219 | From every reachable state, for every job and whatever befalls each further attempt, waiting, reconciling, publishing and consuming bring the job to SUCCEEDED or FAILED. |
| IngestionProgress.Finish | apps/api/src/docta_api/jobs.py:143-219 | The schedule exists with the remaining attempts as the outer measure. |
| IngestionProgress.Attempt | apps/api/src/docta_api/ingestion.py:203-282 | A due job whose event is in the stream can run one attempt: it ends, or its attempt number grows. |
| IngestionTicks.LiveWorkerFinishes | apps/api/src/docta_api/worker.py:57-66 | From every reachable state, with anything left held or unfinished by others: one live worker that keeps ticking in the fixed order, at whatever pace, brings every job to SUCCEEDED or FAILED, whatever befalls its attempts. |
| IngestionTicks.TickEffect | apps/api/src/docta_api/worker.py:57-66 | Every tick lowers the attempts left or, with the same attempts left, the events and deliveries that lead to none; or it changes no job and at most publishes what is due. |
| IngestionTicks.RipeTick | apps/api/src/docta_api/worker.py:57-66 | Once the unfinished jobs and an event of one of them are due, a tick lowers that measure. |
| IngestionTicks.FallsBy | apps/api/src/docta_api/jobs.py:191-219 | While some job is unfinished the measure falls again by the time that every lease, delay and interval has passed, because reconciliation makes an unfinished job's event due in time. |
| IngestionTicks.ConsumeUseful | apps/api/src/docta_api/redis_jobs.py:50-94 | Taking a delivery of due unfinished work uses up at least one of the attempts left. |
| IngestionTicks.ConsumeUseless | apps/api/src/docta_api/redis_jobs.py:76-94 | Any other delivery changes no row and leaves the stream. |
| IngestionTicks.TakesSomething | apps/api/src/docta_api/redis_jobs.py:50-74 | A tick always knows what to take: the first reclaimable entry from the cursor, else the first new one, else nothing. |
| IngestionTicks.StepTimely | apps/api/src/docta_api/ingestion.py:430-433 | After every step no lease, retry or publication time is further ahead of the clock than configured. |
| IngestionRows.HeadExists | apps/api/src/docta_api/jobs.py:146-166 | Whenever some event is due the relay's query returns one, ordered by availability and identifier. |
| IngestionRows.ExamineMeans | apps/api/src/docta_api/ingestion.py:98-163 | An attempt succeeds iff the object is the confirmed one, there is text, and there is no embedder or one vector for each chunk; then with exactly these pages, chunks and vectors. It is worth another attempt iff storage is down, or all before is good and the embedder is down. |
| IngestionRows.ExamineCauses | apps/api/src/docta_api/ingestion.py:100-163 | Which failure code and state each bad answer gives. |
| IngestionRows.MaxDelayMeans | apps/api/src/docta_api/ingestion.py:431-432 | The longest wait doubles with each attempt, up to a minute. |
| IngestionDatabase.Database.CreateUpload | apps/api/src/docta_api/documents.py:204-257 | In place: a repeated key answers with the known upload, another request with the key is refused, otherwise one version is inserted. |
| IngestionDatabase.Database.ConfirmUpload | apps/api/src/docta_api/documents.py:299-344 | In place: confirmation queues the version and inserts its job and outbox event in one transaction; a repetition does nothing. |
| IngestionDatabase.Database.InsertEvent | apps/api/src/docta_api/jobs.py:26-38 | In place: afterwards there is an event of the job and kind, and those there were are unchanged. |
| IngestionDatabase.Database.ActivateCorpus | apps/api/src/docta_api/documents.py:401-429 | In place: activation of a READY corpus of the course by compare-and-set on the course version, or nothing. |
| IngestionDatabase.Database.SelectForPublish | apps/api/src/docta_api/jobs.py:143-175 | In place: the first due event gets the token and a lease; nothing is selected only when nothing is due. |
| IngestionDatabase.Database.MarkEventPublished | apps/api/src/docta_api/jobs.py:179-187 | In place: the mark is set only where identifier and token match. |
| IngestionDatabase.Database.ReconcileStale | apps/api/src/docta_api/jobs.py:197-219 | In place: exactly the stale published events of due jobs become due again. |
| IngestionDatabase.Database.Claim | apps/api/src/docta_api/ingestion.py:203-282 | In place: authentication, refusal, exhaustion or one started attempt. |
| IngestionDatabase.Database.PersistSuccess | apps/api/src/docta_api/ingestion.py:295-402 | In place: fenced commit of corpus, chunks, vectors, version and job, or one of the errors with everything rolled back. |
| IngestionDatabase.Database.PersistFailure | apps/api/src/docta_api/ingestion.py:411-449 | In place: fenced retry with capped backoff, or failure with a dead letter. |
| IngestionDatabase.Database.MayAcknowledge | apps/api/src/docta_api/ingestion.py:198-201 | A delivery may go exactly when its job exists and is not RUNNING. |
| IngestionDatabase.Embed | apps/api/src/docta_api/ingestion.py:168-196 | Success iff every batch is good, and then vector i is the answer for chunk i; otherwise the first bad batch decides the error. |
| ConversationSteps.StepInv | apps/api/src/docta_api/conversation_runtime.py:91-147 | Every step of requests, executions, expiry, activation and crashes keeps the conversation invariant and what never changes. |
| ConversationRuns.TurnsInOrder | apps/api/src/docta_api/conversations.py:296-398 | At most one pending turn per conversation; the sequence numbers in use are exactly 1 to the next one, each once. |
| ConversationRuns.KeyForever | apps/api/src/docta_api/conversations.py:280-295 | Once used, a key answers with the same message for the same question for ever, and with a refusal that changes nothing for another question; no message is added. |
| ConversationRuns.TerminalForever | apps/api/src/docta_api/conversations.py:574-587 | A terminal message, its outcome and its citations never change. |
| ConversationRuns.LateNeverCompletes | apps/api/src/docta_api/conversations.py:610-622 | A turn not completed when its deadline passes never will be. |
| ConversationRuns.ExpiryUnblocks | apps/api/src/docta_api/conversations.py:593-607 | After expiry no pending turn in its scope is past its deadline; overdue ones failed with PROCESSING_INTERRUPTED. |
| ConversationRuns.BusyMeansLive | apps/api/src/docta_api/conversations.py:296-305 | A busy refusal means a pending turn within its deadline, and changes nothing. |
| ConversationRuns.EvidenceEndToEnd | apps/api/src/docta_api/conversations.py:306-316 | Each citation of a completed turn quotes verbatim a chunk row of the corpus that was active when the question was accepted, saved as evidence for that turn, whatever was activated since. |
| ConversationRuns.AnswersAreAdmissible | apps/api/src/docta_api/conversation_runtime.py:91-119 | A completed turn shows one admissible draft against its saved evidence and was stored before its deadline. |
| ConversationRuns.StoredAgrees | apps/api/src/docta_api/conversations.py:563-572 | The stored answer, mode, grounding, citations, contract version, situation and help level are the ones the stored intervention implies; a turn that is not completed has none of them. |
| ConversationRuns.SavedOnce | apps/api/src/docta_api/conversations.py:504-547 | Saving evidence never meets evidence already saved for its turn. |
| ConversationRuns.AntecedentsFlat | apps/api/src/docta_api/conversations.py:321-375 | A stored retrieval query is the question of a strictly earlier completed turn without one; a follow-up without one completes only as the canonical clarification. |
| ConversationRuns.ActionFollowsParent | apps/api/src/docta_api/conversations.py:321-340 | An action belongs to a completed turn of its conversation for ever and carries its query, or its question; a plain question carries none. |
| ConversationRuns.AcceptedDeriving | apps/api/src/docta_api/conversations.py:341-375 | A follow-up, asked for as one or recognised by its phrase, carries no query iff no turn was completed or the newest one abstained or asked back, and otherwise that turn's query if it has one, else its question. |
| ConversationEffects.AcceptMeans | apps/api/src/docta_api/conversations.py:276-405 | For every request: not found, the known message, a reused key, busy, an invalid parent, not storable, or one new pending turn with these columns. |
| ConversationEffects.StorableMeans | apps/api/src/docta_api/conversation_models.py:84 | A question can be stored iff it has 1 to 4000 characters between the spaces around it. |
| ConversationEffects.ExpireMeans | apps/api/src/docta_api/conversations.py:593-607 | Exactly the pending messages of the scope whose deadline has come are interrupted. |
| ConversationEffects.SaveMeans | apps/api/src/docta_api/conversations.py:504-547 | When evidence is saved, as exactly these rows, and which failure it is otherwise. |
| ConversationEffects.CompleteMeans | apps/api/src/docta_api/conversations.py:549-572 | When a turn completes, with which columns, and which failure it is otherwise. |
| ConversationEffects.FailMeans | apps/api/src/docta_api/conversations.py:574-587 | A pending message fails with the code; any other stays. |
| ConversationExecution.ExecutionMeans | apps/api/src/docta_api/conversation_runtime.py:91-147 | The outcome of an uninterrupted execution for every retriever answer and every model output: which turns complete, with which draft, and which fail with which code. |
| ConversationDatabase.Database.Accept | apps/api/src/docta_api/conversations.py:276-405 | In place, with rollback: expiry, lookup by key, busy check, antecedent, insertion. |
| ConversationDatabase.Database.SaveEvidence | apps/api/src/docta_api/conversations.py:504-547 | In place: all items are stored rows of the captured corpus, not saved before, and are saved, or none is. |
| ConversationDatabase.Database.Complete | apps/api/src/docta_api/conversations.py:549-572 | In place: citations, outcome and intervention together, only while live and only of saved evidence, each chunk once. |
| ConversationDatabase.Database.Fail | apps/api/src/docta_api/conversations.py:574-587 | In place: a pending message fails, any other keeps its outcome. |
| ConversationDatabase.Database.Expire | apps/api/src/docta_api/conversations.py:593-607 | In place: exactly the overdue messages of the scope fail, and nothing pending in it is past its deadline afterwards. |
| ConversationHistory.PageExact | apps/api/src/docta_api/conversations.py:407-432 | A page is the next messages in sequence, without gap or repeat, with a next cursor iff messages remain, past the one asked for. |
| ConversationHistory.History | apps/web/lib/docta.ts:121-138 | The client's loop never fails with `invalid_history` and returns every message once, in order, also when rows change between pages. |
| ConversationHistory.RunTimeline | apps/api/src/docta_api/conversations.py:407-432 | The pages may be answered at any moments of any run. |
| ConversationHistory.Window | apps/api/src/docta_api/conversations.py:466-495 | The history in a request is the longest run of last completed turns with at most 6 turns and 12000 characters, in chronological order. |
| ResponseValidator.Validate | apps/api/src/docta_api/rag.py:147-211 | The validator's branches and its loop, equal to the function that the next rows are about. |
| ResponseVerdict.VerdictMeans | apps/api/src/docta_api/rag.py:147-211 | The verdict on every draft: malformed, asking back, out of scope, abstaining, or factual; a factual draft is accepted iff it is grounded, cited, not blank and each quote stands or can be repaired, and then only its citations change, to the first one of each chunk as it stands in the evidence. |
| ResponseVerdict.VerbatimMeans | apps/api/src/docta_api/rag.py:190-198 | A quote that is not there is repaired iff some position folds to it and none from the end of the first such position on does, and then to the span at that position. |
| ResponseVerdict.AmbiguousRefused | apps/api/src/docta_api/rag.py:191-196 | A draft with a quote that two separate spans fold to, and none equals, is refused. |
| ResponseValidator.AcceptedMeans | apps/api/src/docta_api/rag.py:147-211 | An accepted draft is the canonical abstention, one uncited question, or grounded with distinct verbatim citations of evidence in scope. |
| ResponseValidator.ValidationIdempotent | apps/api/src/docta_api/rag.py:147-211 | Validating an accepted draft again changes nothing. |
| ResponseValidator.RepairKeepsContract | apps/api/src/docta_api/rag.py:184-210 | Case repair keeps quote lengths, the number of citations, the contract, the text and the mode. |
| ResponseValidator.RepairVerbatim | apps/api/src/docta_api/rag.py:191-201 | Verbatim quotes are left alone. |
| ResponseValidator.ClarificationAccepted | apps/api/src/docta_api/rag.py:113-131 | The canonical clarification is accepted unchanged whatever the request. |
| TutorContract.Render | apps/api/src/docta_api/tutor_contract.py:171-196 | The plain-text rendering, part by part. |
| TutorContract.RenderLosesNothing | apps/api/src/docta_api/tutor_contract.py:171-196 | The text holds every part that the blocks show, in reading order and without overlaps. |
| TutorContract.LabelIsCaption | apps/api/src/docta_api/tutor_contract.py:183-187 | The endpoint of an edge is shown as the caption of the node it names. |
| TutorContract.AnswerWithheld | apps/api/src/docta_api/tutor_contract.py:190-194 | The text is the same whichever option is correct and whatever hint and explanation say. |
| TutorContract.ModeMeans | apps/api/src/docta_api/tutor_contract.py:215-226 | Exactly when the mode is each of the five: by the two situations without evidence, else by the first block that is a hint or a primary question, else explanation. |
| TutorContract.HelpLevelIsMax | apps/api/src/docta_api/tutor_contract.py:229-231 | The help level is the highest hint level, 0 iff there is no hint. |
| Chunking.BuildChunks | apps/api/src/docta_api/document_parser.py:39-76 | Chunk k is the k-th span: its text, the number of its page, its hash, and ordinal k; OCR_REQUIRED iff there is no span. |
| Chunking.SpansOk | apps/api/src/docta_api/document_parser.py:45-66 | Each span is a trimmed, non-empty stretch of its own page of at most `size` characters. |
| Chunking.SpansInOrder | apps/api/src/docta_api/document_parser.py:45-70 | Spans follow the pages and the positions on them. |
| Chunking.LosesNothingIff | apps/api/src/docta_api/document_parser.py:45-70 | Every non-whitespace character is in a span of its page iff the size is at least 1 or there is none. |
| Chunking.CutPage | apps/api/src/docta_api/document_parser.py:48-70 | The inner loop cuts exactly the windows that the next rows are about, one in each turn, and takes at most 1 + (L-1) / max(1, size/2 - overlap) turns on a page of length L. |
| Chunking.WindowsSegment | apps/api/src/docta_api/document_parser.py:49-70 | Each window ends with the text, else at the last space of its second half, else after `size` characters; the next one starts `overlap` before that end, but after this start; and when there are no more. |
| Chunking.SpansAreWindows | apps/api/src/docta_api/document_parser.py:49-66 | The spans of a page are its windows, trimmed, without the blank ones. |
| Chunking.WindowsCover | apps/api/src/docta_api/document_parser.py:48-70 | Windows start at 0, end at the end, grow and leave no gap. |
| Chunking.WindowsBounded | apps/api/src/docta_api/document_parser.py:67-70 | A page of length L has at most 1 + (L-1) / max(1, size/2 - overlap) windows. |
| Chunking.OcrRequiredIff | apps/api/src/docta_api/document_parser.py:71-75 | A document needs OCR iff all its pages are blank. |
| Tsquery.RoundTrip | apps/api/src/docta_api/postgres_retriever.py:11-28 | Reading a printed query gives the lexemes back without later duplicates, whatever they contain. |
| Tsquery.ReadPrinted | apps/api/src/docta_api/postgres_retriever.py:15-21 | The same for every separator without quotes. |
| Tsquery.Stable | apps/api/src/docta_api/postgres_retriever.py:15-28 | Printing the lexemes of any text and reading them again changes nothing. |
| Tsquery.Injective | apps/api/src/docta_api/postgres_retriever.py:24-28 | Different lists of distinct lexemes print differently. |
| TsqueryGrammar.LexemesMean | apps/api/src/docta_api/postgres_retriever.py:11-21 | For every text the lexemes are the bodies of a scan, unescaped, in the order of their first occurrences. |
| TsqueryGrammar.BodyEndMeans | apps/api/src/docta_api/postgres_retriever.py:11 | A match ends at the last quote that leaves a body of plain characters, doubled quotes and escapes. |
| TsqueryGrammar.FindAllMeans | apps/api/src/docta_api/postgres_retriever.py:18-20 | The matches found are those of a scan: from left to right, as long as they can be, none left out. |
| TsqueryGrammar.ScanUnique | apps/api/src/docta_api/postgres_retriever.py:18-20 | There is only one such scan. |
| TsqueryGrammar.UnescapeMeans | apps/api/src/docta_api/postgres_retriever.py:12-18 | A body stands for its characters, with each doubled quote a quote and each escaped character itself. |
| EventStream.ReadEvents | apps/web/lib/sse.ts:3-37 | The reader's loops: blocks cut off the front, events called back, "Event too large". |
| EventStream.ReadsWhole | apps/web/lib/sse.ts:11-31 | For text without a doubled carriage return, the callbacks are those of the whole text iff every chunk fits, and otherwise a first part of them. |
| EventStream.RoundTrip | apps/api/src/docta_api/conversation_routes.py:72-76 | However the printed stream is cut, exactly the printed names and payloads come back in order, iff every chunk fits. |
| EventStream.SmallChunksRead | apps/web/lib/sse.ts:15 | Chunks that leave room for the longest frame always fit. |
| EventStream.TooMuchAtOnce | apps/web/lib/sse.ts:15 | Every printed text longer than the limit is refused when it arrives in one chunk. |
| EventStream.FrameLimitNotEnough | apps/web/lib/sse.ts:15 | So frames of 13 characters can be refused, when enough of them arrive together. |
| EventStream.ResumesIff | apps/web/lib/sse.ts:13-14 | Normalising chunk by chunk is normalising the whole, for every cut of a text, iff no carriage return is doubled before a line feed in it. |
| EventStream.MixedReturnsDepend | apps/web/lib/sse.ts:13-31 | With a doubled return the same text can be one event when it arrives whole and none when it is cut. |
| EventBlocks.DrainMeans | apps/web/lib/sse.ts:16-19 | The blocks, each with the first empty line after it, and a rest without one make up the buffer. |
| EventBlocks.ParseMeans | apps/web/lib/sse.ts:20-29 | The first `event:` line names the callback and all `data:` lines, joined by line feeds, are its payload; without either there is none. |
| EventBlocks.CrlfReads | apps/web/lib/sse.ts:14-31 | A stream with paired line ends, however it is cut, makes the callbacks of the same stream with plain ones iff every chunk fits. |
| EventStream.ParseHeartbeat | apps/api/src/docta_api/conversation_routes.py:135-137 | A heartbeat calls nothing back. |
| LinearSequence.LinearSequence | apps/web/lib/openui/library.tsx:97-115 | The walk of the code, equal to the function that the next rows are about. |
| LinearSequence.RecognisedAnswers | apps/web/lib/openui/library.tsx:97-115 | An answer is the steps of a path through all nodes whose links are exactly the edges; no answer means there is none. |
| LinearSequence.RecognisedIsThePath | apps/web/lib/openui/library.tsx:97-115 | If there is such a path, the answer is its steps with its edge labels. |
| LinearSequence.StepOn | apps/web/lib/openui/library.tsx:103-113 | The walk never revisits a node. |
| Provisioner.OnceMeans | scripts/dev.py:918-946 | Between two create requests for the same resource key there is a recovery. |
| Provisioner.NothingPending | scripts/dev.py:918-946 | With both resources recorded nothing is pending. |
| Provisioner.Provisioner.Ensure | scripts/dev.py:918-946 | What is recorded is taken without a request, what the search finds is taken over, and only otherwise one create request is sent, never while another is pending; at every crash point the file is sound and every request sent is recorded or pending; helpful replies bring success. |
| Provisioner.Provisioner.Recover | scripts/dev.py:948-963 | Recovery starts the file again for the new instance iff it is allowed and the process lives; otherwise nothing changes. |
| Provisioner.Provisioner.Identify | scripts/dev.py:965-1003 | Recovery happens iff another instance is recorded than the one that answers, or on request. |
| Provisioner.Provisioner.Provision | scripts/dev.py:965-1053 | Success leaves everything recorded and nothing pending; without recovery nothing recorded changes; with good replies and no reason to recover it does succeed. |
| Provisioner.Sessions | scripts/dev.py:1147-1156 | The same over any sequence of runs with any replies, dying anywhere. |
| LegacyImport.EncodeInjective | scripts/dev_state.py:129-151 | Different lists of named files never feed the digest the same bytes. |
| LegacyImport.Fingerprint | scripts/dev_state.py:137-151 | The digest is fed that encoding, file by file. |
| LegacyImport.SharedProfile.Publish | scripts/dev_state.py:236-263 | Stopped anywhere, with any unsynced rename lost, the profile is at one of four stages, configuration last. |
| LegacyImport.SharedProfile.Migrate | scripts/dev_state.py:189-268 | Nothing that exists is replaced, a partial import is refused, a good source is imported into an empty profile unless it is stopped, and a configured profile is accepted iff it came from this source or agrees with it. |
| LegacyImport.ImportCrashRerun | scripts/dev_state.py:189-268 | After a crash at any point the next run finds a complete import, refuses a partial one, or starts from nothing. |

## Left out

- Authorization, tenants, sessions, HTTP routing, request validation and logging: each is a check in front of the modelled operations.
- Row locks and isolation: one transaction is one step. `SKIP LOCKED` is not modelled, so a relay always sees the first due event.
- Redis: the stream is a set of deliveries that may arrive in any order, any number of times, or be lost, so consumer groups, the claim cursor and idle times are covered by arbitrary choice; `IngestionTicks` models them as far as they decide what a tick takes. The mirror of dead letters and its trimming are not modelled.
- `JobEnvelope.fields` and `JobEnvelope.parse`: formatting of identifiers; a forged envelope is any envelope value.
- Object storage, PDF parsing, embedding, retrieval ranking, the tutor model and its prompts: any answer is allowed.
- Chunk rows beyond their content, page and ordinal, the version label of embeddings, and the retrieval coverage floor (one comparison).
- IngestionDatabase.Database.PersistSuccess: does not count the rows that it has just inserted once more, because the counts cannot differ from the lists it inserted.
- IngestionTicks.LiveWorkerFinishes: measures the reconcile interval with the database clock instead of the process clock, and lets the worker die only during an attempt, where it is replaced.
- The database's own constraints other than those the transactions rely on, and migrations.
- ConversationHistory.History: needs a bound on the growth of the conversation while it is read, because a conversation that grows faster than pages arrive is never finished.
- Progress phases of a running turn and their streaming, and whether a disconnected client is told.
- Stored request hashes, file names and document titles, and `allowed_actions`: single expressions.
- UTF-8 decoding and JSON in the event stream: payloads are single lines of characters that start with their first brace.
- The check and update of the application's redirect configuration in `provision`, which creates nothing; other processes writing the state file.
- JSON, dotenv and symbolic links of the imported profile: readers are parameters, and links are flags.
- React components other than the sequence recogniser, the setup wizard, Docker orchestration and configuration validators.
