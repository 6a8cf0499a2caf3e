# Verified models of the research assistant's core

This project states and proves, in Dafny 4.11, what the concurrent and algorithmic
core of the repository is for: that a paid model call is sent at most once, that
tokens are accounted exactly, that an index can be rebuilt from its outbox, that a
search reads one version of its backend, and that the text algorithms compute what
their names say.

`dafny verify dfyconfig.toml` checks everything.

## What is modelled

| Files | Part of the repository |
|---|---|
| `ModelCallLedger`, `LedgerDecisions`, `LedgerRuns`, `LedgerLaws`, `LedgerReads` | the SQLite ledger of external model calls and the one-shot import of an old budget |
| `DispatchProtocol`, `DispatchAnswers`, `DispatchSafety`, `DispatchLaws` | the two clients of that ledger as a small-step system of any number of workers |
| `MemoryStore`, `MemoryLaws`, `MemoryReads` | the fact store with its outbox, receipts and projected vector index |
| `EncodingSlot`, `EncodingCallbacks` | the single encoding slot and the circuit of the semantic router |
| `RetrievalGateway`, `GatewayLaws`, `UnverifiedSearches`, `SearchPreflight`, `QuietRequests` | the change-token discipline of pins and searches under concurrent writers |
| `RankFusion`, `FusionLaws`, `FusionScores` | reciprocal-rank fusion of documents and passages |
| `EditDistance` | the edit-distance table of the query cleaner |
| `Packing`, `Chunking` | the two ways of cutting text into chunks |
| `TimeSpans` | choosing time expressions by rule priority |
| `Inheritance`, `InheritanceLaws` | times, attributes and dependencies between the clauses of a question |
| `RateLimiter` | the fixed-window rate limiter |
| `Wilson` | the Wilson score interval |
| `Foundations` | options and sums over tables |

Where the program updates tables or fields in place, there is a class whose methods
run the same branches in the same order; each method's postcondition gives its result
and its whole new state as a function of the old state (`PrepareStep`,
`TransitionStep`, `Commit`, `TreatRow`, `AdmitStep`, `ExpireStep`, `FinishStep`,
`PinStep`, `AllowStep`, ...). The laws are proved of these functions over every run,
so they hold of the methods. What each function decides and writes is stated once more
of the rows and fields themselves, without the functions: in `LedgerDecisions`,
`DispatchAnswers`, `MemoryReads`, `EncodingCallbacks`, `QuietRequests` and
`FusionScores`, and at the end of the smaller modules. Runs are sequences of steps of any callers in any
interleaving. A `BEGIN IMMEDIATE` transaction or a block under a lock is one step; a
read of a shared resource, a POST, or a crash is a step of its own.

### Assumptions

* Ids and keys that the program hashes are kept as the values that are hashed: hashes
  are injective. Encrypting a response keeps what `sanitize` leaves of it.
* All callers of one logical request use the same client, provider and purpose (the last
  two are part of the call id). `FAILED_RETRYABLE_NOT_SENT` is entered only from
  `PREPARED`: no client writes it, and `Abandon` in the model does so only from there. The ledger itself
  would also allow it from `DISPATCH_INTENT`; the ledger's own laws cover that too.
* The limits of an operation are written once (agent/runtime/operations.py:206).
* The embedder and the two searches of recall are oracles. A stored payload can be read
  exactly if it was written by the user it is stored under; `MemoryLaws.HistoriesIff` says
  what a fact's history needs of the ids.
* Every backend write makes a new version with a fresh change token, nobody closes the
  gateway during a request, and the registry is the strict one, so that snapshots carry
  a manifest and every token read yields a token or raises. What makes a pin or a
  verification raise besides a token or a part of the identity (registry records,
  manifests, catalogs) is a step at which a request may fail at any moment. The lock
  that a cached pin holds while it verifies is not held in the model: that allows more
  interleavings than the program has.
* Futures of the router have fresh ids. Clocks are arguments; where a law needs a clock
  that never goes back it says so.
* Regular expressions, parsed times, clause roles and rule matches are inputs.

### Where the code does not do what one may expect

* **Vector index.** The index of a drained outbox can keep an old vector: a version of
  a fact that yields no embedding leaves the vector of the version before it
  (`UnembeddableLeavesOldVector`), and a pass that goes on after an exception can
  project a later version before an earlier one (`OutOfOrderLeavesOldVector`).
  `IndexAgreesIff` gives the exact condition for agreement after every run, whatever was
  projected in whatever order and whatever the ids; `DrainedIndexAgrees` is what it comes
  to for a fact with its history whose rows were drained in order: no version with a
  vector is followed only by versions without one.
* **Keys of intents.** The key of an intent joins user and fact id with a colon and is not
  hashed (memory/memory_manager.py:213). Two pairs of a user and a fact id that are joined
  to one key, as "a" with "b:c" and "a:b" with "c", lose the second intent: the fact is
  stored and live with nothing to project it (`SharedKeyLosesIntent`). `HistoriesIff`:
  every fact has its gapless history after every run over given pairs, if and only if no
  two pairs share a fact id or a joined key. Ids without colons, and the ids of a single
  user, are safe (`PlainIdsApart`). The program's own ids are: it makes them of "fact_" or
  "summary_" and hexadecimal digits (memory/memory_manager.py:509, 524, 764), and requests
  and the administration commands only pass those on. A colon can come in only with ids
  from outside, through the import of legacy facts (memory/memory_manager.py:133-171) or a
  direct call of `_commit_mutations`, `apply_request_event` or `_write_l2`.
* **Repeated saves.** An explicit save that is retried is recognised by comparing it with
  what was persisted, which is sanitised. If sanitising alters the value, the retry writes
  another revision (`RepeatedSaveIff`).
* **Encoding slot.** A timeout handler that runs after its own encoding's callback,
  while another caller's encoding holds the slot, marks the finished encoding and makes
  the slot wait (`StrayTimeoutRun`). `MarksAreOutstandingIff` says that nothing else
  breaks the marks.
* **Search without a verified context.** If the contents change and change back, and
  another pin stores the newer token, such a search can return what it read in between
  (`UnverifiedSearchMixesVersions`). That is the only way: as long as no other request
  stores a token of the snapshot after the search's first verification, its evidence is
  of one version (`QuietSearchSeesOneVersion`, `OnlyRestoringMixes`), and its two
  verifications saw different tokens exactly if the stored token had changed by the last
  comparison (`TokensDifferIff`). With a verified context it cannot happen at all.
* **Chunking.** The loop of core/vector_store.py never ends if the overlap is not
  smaller than the chunk and the text is longer than a chunk (`TerminatesIff`).
* **Source labels.** A clause that inherits times is labelled with the nearest earlier
  time clause. That clause may have supplied none of them: a question with a time of its
  own came in between and replaced the group (`MislabelledRun`), or an earlier time clause
  of the group had the same key, so the time of the later one was dropped (`SameKeyRun`).
  `LabelSuppliesIff` says that these are the only two ways.
* **Times with one key.** The key of a time is made of four of its fields
  (kb-agent/splitter.py:469-471). The same hours in two time zones have one key, and so
  have all vague times: the later ones are lost. `TimesLostIff` gives the exact condition.
* **Rate limiter.** The bound of twice the limit is not tight: it is one call less,
  and that is reached (`AtMostTwiceTheLimit`, `BoundReached`).
* **Hard cuts.** The packing loop of kb-agent/kb_optimize.py drops every paragraph if its
  maximum is negative and raises at the first paragraph if it is zero; `ConservedIff` says
  exactly when the paragraphs are spelled. The program only passes the constant 512.

## Model

| member | source | states |
|---|---|---|
| ModelCallLedger.Ledger.Prepare | agent/model_call_ledger.py:109-200 | one transaction: the same checks in the same order, the record returned or the error raised, and every table after it; a raise leaves all tables as they were |
| LedgerDecisions.PrepareDecides | agent/model_call_ledger.py:117-193 | when a prepare answers and with which of the three errors it refuses, said of the request and the rows |
| LedgerDecisions.RecordAdded | agent/model_call_ledger.py:122-201 | a new record is prepared with the request's contents at revision 1 and bound to the claimed operation, as a repair for the three repair purposes |
| LedgerDecisions.ReservesTheDay | agent/model_call_ledger.py:135-193 | a new record reserves its estimate once for each given scope but the daily one and once for the daily one's bucket of the day, and nowhere else |
| LedgerDecisions.ChargesTheDay | agent/model_call_ledger.py:180-191 | each of these buckets gains the estimate and keeps the lower of its own and the requested ceiling; no other bucket changes |
| LedgerDecisions.DaysApart | agent/model_call_ledger.py:136-140 | what a request is answered on one day does not depend on what its daily scope was charged on another |
| ModelCallLedger.Ledger.ReserveScopes | agent/model_call_ledger.py:180-193 | reserves in every scope or, if one ceiling is too low, raises without a reservation; the order of scopes does not matter |
| ModelCallLedger.Ledger.ChargeOverruns | agent/model_call_ledger.py:262-273 | raises each reservation of the call to the reported tokens and its bucket by the difference, never down |
| ModelCallLedger.Ledger.Transition | agent/model_call_ledger.py:215-293 | one compare-and-swap: allowed moves, authority under a live lease, charging, response, revision; everything else raises and changes nothing |
| LedgerDecisions.TransitionDecides | agent/model_call_ledger.py:222-263 | when a transition commits and with which error it refuses, said of the two states, the claim and the rows |
| LedgerDecisions.RecordMoved | agent/model_call_ledger.py:274-287 | the committed record has the target state, the reported digest, usage and error class, the sanitised response or the old one, and the next revision |
| LedgerDecisions.UsageCharged | agent/model_call_ledger.py:264-273 | each reservation of the call rises to the usage reported, its bucket as much, and nothing else changes |
| ModelCallLedger.Ledger.RecoverOne | agent/model_call_ledger.py:300-314 | closes one dispatch intent as unknown exactly if it is unbound or its operation is not live |
| ModelCallLedger.Ledger.RecoverUncertain | agent/model_call_ledger.py:295-314 | while time passes, closes every intent orphaned at the start and none that is not orphaned by the end, and counts them; other records and tables stay |
| LedgerDecisions.OrphansAre | agent/model_call_ledger.py:237-249 | the orphans of a sweep are the dispatch intents whose operation nobody holds |
| LedgerDecisions.RecoveredRecord | agent/model_call_ledger.py:300-314 | a recovered record ends as unknown with its error class and no usage; no budget changes |
| LedgerLaws.RecoveryClosesIff | agent/model_call_ledger.py:300-314 | a recovery changes the tables exactly if the call is a dispatch intent that no live operation holds at that moment, and then the outcome is unknown |
| LedgerLaws.SweepAmongOthers | agent/model_call_ledger.py:295-314 | with any other transactions mixed into a sweep, each intent open at its start has finished at its end, unless a live operation held it when the sweep came to it |
| ModelCallLedger.Ledger.ListFor | agent/model_call_ledger.py:323-329 | exactly the records of a logical request, once each, by attempt |
| LedgerDecisions.ListingIs | agent/model_call_ledger.py:323-329 | a listing holds the records of the request and no others, each once, in the order of their attempts |
| LedgerReads.RevisionTellsChange | agent/model_call_ledger.py:316-321 | of two reads of a call in any run the second finds the record too, with the same revision exactly if it is the same record, and never another once it has finished |
| LedgerReads.FoundIffPrepared | agent/model_call_ledger.py:316-321 | a reader finds a call exactly if the run prepared it, in the state of its last step |
| LedgerReads.LoadedIsReported | agent/model_call_ledger.py:331-339 | after any run, loading gives the sanitised form of the payload the call's transitions reported last exactly if it succeeded and one was reported, else an error |
| ModelCallLedger.Ledger.ImportFrozenBaseline | agent/token_budget_migration.py:63-109 | validates everything before it writes, imports only into an untouched ledger, answers a repeated import without a change |
| LedgerDecisions.ImportDecides | agent/token_budget_migration.py:70-109 | when an import takes effect, is a repetition, or is refused and how, and what it writes |
| LedgerDecisions.ScopeShape | agent/token_budget_migration.py:79 | a mapped scope is 64 hexadecimal digits, alone or followed by a colon and a date |
| LedgerRuns.Invariants | agent/model_call_ledger.py:109-293 | in every run the tables are well formed, conserved, bounded and within operation limits |
| LedgerRuns.EffectOnCall | agent/model_call_ledger.py:222-293 | what any transaction can do to a record: nothing, create it as prepared, or one allowed move with the next revision |
| LedgerLaws.TokensConserved | agent/model_call_ledger.py:132-201 | a bucket's used tokens are its imported baseline plus the charges of its reservations, and a charge is the larger of the estimate and anything reported |
| LedgerLaws.OvershootBounded | agent/model_call_ledger.py:180-193 | a bucket that starts within its ceiling exceeds it by no more than its calls overran their estimates |
| LedgerLaws.OverdrawnForGood | agent/model_call_ledger.py:180-193 | ceilings never rise, and a bucket once over its ceiling takes no further attempt |
| LedgerLaws.RunIsLater | agent/model_call_ledger.py:222-293 | what no run undoes: records, terminal states and responses, use, lower ceilings, migrations |
| LedgerLaws.TerminalForGood | agent/model_call_ledger.py:222-229 | a finished call keeps its record and response for the rest of the run |
| LedgerLaws.RecordedPrepare | agent/model_call_ledger.py:149-167 | preparing a recorded attempt changes no table and can only return the record |
| LedgerLaws.PreparedOnce | agent/model_call_ledger.py:149-167 | an attempt once recorded is never charged again, however much later it is prepared |
| LedgerLaws.RefusalChangesNothing | agent/model_call_ledger.py:132-201 | a transaction that raises changes no table |
| LedgerLaws.AtMostOneImport | agent/token_budget_migration.py:88-109 | at most one import takes effect, and only while nothing has been accounted |
| LedgerLaws.RecordsFollowLifeCycles | agent/model_call_ledger.py:222-293 | every record went through one of the life cycles with one revision per state; success and unknown outcome are revision 3, through dispatch intent |
| LedgerLaws.DispatchedUnderLease | agent/model_call_ledger.py:232-249 | a dispatch intent is made under the bound operation by an owner whose lease is running |
| LedgerDecisions.LimitsOnce | agent/runtime/operations.py:206 | an operation keeps the limits it was first given |
| LedgerLaws.AttemptsWithinLimits | agent/model_call_ledger.py:168-179 | attempts and repairs of an operation stay within its limits in every run |
| DispatchSafety.RunPreserves | agent/deepseek_client.py:307-441 | the invariant of the protocol in every reachable state of any workers with crashes, expiring leases and recovery |
| DispatchSafety.StepPreserves | agent/deepseek_client.py:307-441 | each single step, of a worker or of recovery, keeps the invariant |
| DispatchSafety.OnlyClaimsHold | agent/deepseek_client.py:395-412 | a worker gets to send a call only by winning its claim while it was prepared |
| DispatchSafety.ListingEndsAtLength | agent/deepseek_client.py:349-356 | a listing of n records ends with attempt n, so the next attempt is new |
| DispatchLaws.EachCallPostedOnce | agent/deepseek_client.py:321-441 | no call id is ever posted twice |
| DispatchLaws.AttemptsContiguous | agent/deepseek_client.py:349-356 | the attempts of a logical request are 1 to n without gaps |
| DispatchLaws.PostsPerRequest | agent/deepseek_client.py:321-441 | a logical request is posted at most once more than it was forced |
| DispatchLaws.CallersGetOneResponse | agent/deepseek_client.py:329-412 | without forced attempts all callers that return get the one persisted response, or for at most one of them the payload it was sanitised from |
| DispatchLaws.OperationBounded | agent/model_call_ledger.py:141-179 | per operation: posts at most attempts at most the limit, repairs at most theirs |
| DispatchLaws.PostedUnderLease | agent/model_call_ledger.py:232-249 | every post was preceded by a claim of its call by the owner of a running lease |
| DispatchLaws.WorkersRunTheLedger | agent/budgeted_nlu_provider.py:21-77 | the tables under any run of both clients are those of a run of ledger transactions, so every ledger law holds of them |
| DispatchAnswers.SettlesPayload | agent/deepseek_client.py:430-441 | after a payload the record has succeeded with its sanitised form, digest and, for the first client, its usage, to which every reservation of the call rises; the second client reports none |
| DispatchAnswers.SettlesFailure | agent/deepseek_client.py:415-429 | how every other answer ends the call for each client: failed, unknown, or with its intent left standing |
| DispatchAnswers.SettlerEnds | agent/deepseek_client.py:415-442 | what the worker then returns or raises |
| DispatchAnswers.ClaimDecides | agent/deepseek_client.py:388-412 | a claim is won exactly while the record is prepared, bound to the caller's operation and under its lease; the loser changes nothing and waits or gives up |
| DispatchAnswers.PostSends | agent/deepseek_client.py:413-414 | sending posts the call once and changes no table |
| DispatchAnswers.ListDecides | agent/deepseek_client.py:325-356 | what a caller does with the records of its request: refuse, return the stored message, wait, give up, or go for the pending or the next attempt |
| DispatchAnswers.PollDecides | agent/deepseek_client.py:340-348 | what a waiting caller does with what it reads |
| DispatchAnswers.ReserveDecides | agent/deepseek_client.py:376-387 | what a caller does with the record its prepare found |
| DispatchAnswers.ReserveAdds | agent/deepseek_client.py:357-375 | a caller whose prepare added a record goes on to claim it; one that was refused changed nothing |
| DispatchAnswers.ReserveRefused | agent/deepseek_client.py:357-375 | a caller is refused exactly in the cases and with the errors of the ledger |
| DispatchAnswers.FinishedForGood | agent/deepseek_client.py:307-442 | what a worker has returned or raised stays so, whatever the others do |
| DispatchAnswers.NobodyIsStuck | agent/deepseek_client.py:307-442 | a worker that has not finished, and no other, always has a step of its own besides crashing |
| DispatchAnswers.OthersDecide | agent/model_call_ledger.py:295-314 | recovery among workers closes exactly the intents nobody holds; it and the runtime's own writes touch no budget and no worker |
| DispatchAnswers.LoneCallReturns | agent/deepseek_client.py:307-442 | a worker whose fresh attempt is admitted and that nobody disturbs posts once, records the answer and returns its message |
| EditDistance.Compute | kb-agent/cleaner.py:143-159 | the result is the least number of insertions, deletions and substitutions of any script between the two strings |
| EditDistance.FillTable | kb-agent/cleaner.py:143-159 | the two-dimensional table filled in place ends with the recursive distance |
| EditDistance.NoShorterScript | kb-agent/cleaner.py:143-159 | no script is shorter than the distance |
| EditDistance.ScriptWorks | kb-agent/cleaner.py:143-159 | a script as long as the distance transforms one string into the other |
| EditDistance.ZeroIffEqual | kb-agent/cleaner.py:143-159 | the distance is zero exactly for equal strings |
| EditDistance.Symmetric | kb-agent/cleaner.py:143-159 | the distance is symmetric |
| EditDistance.Triangle | kb-agent/cleaner.py:143-159 | the triangle inequality |
| EditDistance.BetweenLengths | kb-agent/cleaner.py:143-159 | the distance lies between the difference of the lengths and the longer length |
| MemoryStore.Memory.CommitMutations | memory/memory_manager.py:176-222 | facts, intents and receipt are committed together or not at all; an applied event changes nothing |
| MemoryReads.MutationDecides | memory/memory_manager.py:185-220 | one mutation raises, is skipped as a repetition, or writes the next revision of its fact and a pending intent |
| MemoryReads.RepeatedSaveIff | memory/memory_manager.py:189-198 | an explicit save made again changes nothing exactly if what was persisted kept its operation id and value; else it writes one more revision |
| MemoryReads.ChangedSaveWrites | memory/memory_manager.py:199-212 | a changed save, or one that is not explicit, writes the next revision |
| MemoryReads.TransactionIsSequence | memory/memory_manager.py:184-220 | the mutations of a transaction act one after the other, all or none |
| MemoryReads.EventDecides | memory/memory_manager.py:179-183 | an event is applied as its mutations are, once, and leaves its receipt exactly if they commit |
| MemoryStore.Memory.ReplayOutbox | memory/memory_manager.py:224-259 | a pass over any fetched rows with a failure or a crash at any point of any row, and how many it completes |
| MemoryReads.TreatmentDecides | memory/memory_manager.py:232-259 | what each ending of a row's treatment leaves of the row and of the index |
| MemoryReads.PassCompletes | memory/memory_manager.py:224-259 | a pass completes exactly the rows it projected and marked before a crash, and counts them |
| MemoryStore.Memory.LoadL2 | memory/memory_manager.py:742-751 | exactly the live facts of the user, or an error exactly if one of them cannot be read |
| MemoryReads.LoadedAreLastUpserts | memory/memory_manager.py:742-751 | after every run over pairs that are apart, a payload is among a user's loaded facts exactly if it is that of the last intent of one of the user's facts and that is no delete |
| MemoryStore.Memory.RecallCandidates | memory/memory_manager.py:703-740 | whatever the index returns, recall yields only live facts of the user, from keywords or else from the hits, or an error exactly if one of the facts cannot be read |
| MemoryLaws.HistoriesIff | memory/memory_manager.py:182-220 | over any pairs of users and fact ids: every fact has its gapless history after every run exactly if no two pairs share a fact id or a joined key |
| MemoryLaws.FactsHaveHistories | memory/memory_manager.py:176-222 | over pairs that are apart, a fact's intents are a gapless chain of revisions ending at its stored one, the last a delete exactly if it is tombstoned |
| MemoryLaws.SharedKeyLosesIntent | memory/memory_manager.py:213-220 | for any two facts whose pairs join to one key, after two saves the second is stored and live without an intent |
| MemoryLaws.SharedIdBreaksHistory | memory/memory_manager.py:186-212 | for any id of two users, after two saves it stays the first user's, who cannot read it, and its intents repeat a revision |
| MemoryLaws.FactsAreReadable | memory/memory_manager.py:742-751 | over pairs that are apart every stored payload can be read after every run |
| MemoryLaws.PlainIdsApart | memory/memory_manager.py:213 | pairs share no key if each id has one user and no id holds a colon, or all are one user's |
| MemoryLaws.FactsStayKeyed | memory/memory_manager.py:176-222 | every fact stays stored under its own id |
| MemoryLaws.EventAppliedOnce | memory/memory_manager.py:173-174 | applying an event again, at any later time, changes nothing |
| MemoryLaws.CompletedAreProjected | memory/memory_manager.py:224-259 | a row marked complete was projected |
| MemoryLaws.IndexIsProjection | memory/memory_manager.py:224-259 | the index holds what the projections made so far, in their order, leave in it |
| MemoryLaws.IndexAgreesIff | memory/memory_manager.py:224-259 | after every run of commits, projections, failures and crashes in any order the index holds the wanted vector of a fact exactly if it was settled last as the fact is stored; for a fact with its history, exactly if its newest row settled it |
| MemoryLaws.DrainedIndexAgrees | memory/memory_manager.py:224-259 | the case of a fact with its history, drained in revision order, whatever the crashes: the index agrees exactly if no version with a vector is followed only by versions without one; other orders are covered by `IndexAgreesIff` |
| MemoryLaws.OrderlyPassesAgree | memory/memory_manager.py:224-259 | passes that take the oldest row first and meet no exception meet that condition for order |
| MemoryLaws.OutOfOrderLeavesOldVector | memory/memory_manager.py:224-259 | a run with an exception after which the index keeps the first of two versions |
| MemoryLaws.UnembeddableLeavesOldVector | memory/memory_manager.py:561-589 | a run in order after which the index keeps a version that was replaced by one without a vector |
| EncodingSlot.Router.Admit | agent/semantic_matrix.py:69-79 | takes the free slot, as a probe if the circuit was tripped, or refuses and changes nothing |
| EncodingSlot.Router.Expire | agent/semantic_matrix.py:84-97 | the timeout block, for an encoding still in the slot and for one already called back |
| EncodingSlot.Router.Finish | agent/semantic_matrix.py:120-137 | the callback frees the slot, counts a late completion, resets the circuit on success and reopens it after a failed probe |
| EncodingSlot.Router.ConfirmServiceRecovery | agent/semantic_matrix.py:139-146 | resets a circuit only when nothing is in the slot |
| EncodingSlot.Router.State | agent/semantic_matrix.py:148-160 | the report of the slot at a given time |
| EncodingCallbacks.EnterDecides | agent/semantic_matrix.py:69-79 | whom the slot admits, as a probe or not, and why it refuses |
| EncodingCallbacks.ExpireDecides | agent/semantic_matrix.py:84-97 | what a timeout counts, marks and, from the third in a row, reopens |
| EncodingCallbacks.CallbackDecides | agent/semantic_matrix.py:120-137 | a callback resets count and circuit exactly if its encoding ended without error, cancellation or timeout; that of another probe restarts the circuit's time |
| EncodingCallbacks.ConfirmDecides | agent/semantic_matrix.py:139-146 | a confirmed recovery resets both, but only of a free slot |
| EncodingCallbacks.PhaseDecides | agent/semantic_matrix.py:80-98 | how an encoding goes from admission to its end, and that only a queued one can be cancelled |
| EncodingCallbacks.ReportTells | agent/semantic_matrix.py:148-160 | what the report says of the count, the time and the slot |
| EncodingCallbacks.ProbesAreTripped | agent/semantic_matrix.py:76 | a probe in the slot means three or more timeouts in a row |
| EncodingCallbacks.FailedProbeReopens | agent/semantic_matrix.py:132-137 | after the callback of a probe that failed, was cancelled or came late, every caller within the circuit's time is refused, unless a recovery is confirmed |
| EncodingRuns.Invariants | agent/semantic_matrix.py:69-137 | exclusive slot, telling status, counted timeouts, cooling circuit in every reachable state |
| EncodingRuns.OneAtATime | agent/semantic_matrix.py:69-99 | the encodings without a callback number one if the slot is taken, else none; pending and probing imply taken; the status names the state |
| EncodingRuns.CounterIsStreak | agent/semantic_matrix.py:95-97 | the counter is the number of timeouts since the last success or confirmed recovery |
| EncodingRuns.ProbesWait | agent/semantic_matrix.py:71-76 | an encoding admitted with the circuit tripped starts the circuit time after every earlier timeout and failed probe |
| EncodingRuns.NeverStuck | agent/semantic_matrix.py:148-160 | once all callbacks ran, a caller is refused only while the circuit is open, exactly as the report says |
| EncodingRuns.TimeoutsAccounted | agent/semantic_matrix.py:86-95 | every timeout is counted as a late completion or still marked |
| EncodingRuns.MarksAreOutstandingIff | agent/semantic_matrix.py:92-93 | marks are of outstanding encodings exactly while no timeout block ran after its own callback under another's slot |
| EncodingRuns.StrayTimeoutRun | agent/semantic_matrix.py:84-97 | a run with such a block |
| RetrievalGateway.Gateway.FindCached | core/retrieval_gateway.py:229-236 | the cached snapshot exactly if it is of the active generation, young and no refresh is forced |
| RetrievalGateway.Gateway.StorePin | core/retrieval_gateway.py:510-517 | a finished pin stores its token, snapshot and digest |
| RetrievalGateway.Gateway.CompareToken | core/retrieval_gateway.py:599-607 | whether a token shows a change, a known snapshot, or one to be scanned |
| RetrievalGateway.Gateway.StoreVerified | core/retrieval_gateway.py:782-786 | a finished scan stores its token and digest |
| RetrievalGateway.Gateway.Bind | core/retrieval_gateway.py:531-532 | the latest context of a snapshot is kept |
| GatewayLaws.StepKeeps | core/retrieval_gateway.py:222-518 | every step of a request, a writer or the registry keeps the invariant |
| GatewayLaws.PinSeesOneVersion | core/retrieval_gateway.py:222-518 | a returned snapshot has in every part the identity of the backend at one version from the time of the call |
| GatewayLaws.TokensDescribe | core/retrieval_gateway.py:508-533 | each stored token, and that of each verified context, is a version whose identity the snapshot has; contexts always have a token |
| GatewayLaws.VerifiedSearchSeesOneVersion | core/retrieval_gateway.py:920-1045 | evidence returned with a verified context was all computed from one version, which has the snapshot's identity and was current at the end |
| GatewayLaws.UnverifiedSearch | core/retrieval_gateway.py:954-1032 | without a context the identity held at both verifications, and the evidence is of one version if both saw the same token |
| SearchPreflight.PreflightDecides | core/retrieval_gateway.py:970-978 | in every run a search returns evidence only by a status that is not blocked and ends blocked only by one that is; without a context the status is of a version since its first verification |
| SearchPreflight.ContextDecides | core/retrieval_gateway.py:970 | with a context the status is that of the context the search found |
| QuietRequests.BeginDecides | core/retrieval_gateway.py:222-227 | a search with a snapshot goes straight to it; other requests start from the active generation or end without one |
| QuietRequests.ChosenDecides | core/retrieval_gateway.py:229-236 | when a pin verifies the cached snapshot and when it scans |
| QuietRequests.ScanPins | core/retrieval_gateway.py:237-518 | undisturbed, a scan pins the identity of the current contents and stores it with its token |
| QuietRequests.VerifyDecides | core/retrieval_gateway.py:599-607 | undisturbed, when a verification fails, when it is spared its scan, and what a scan stores |
| QuietRequests.PinnedDecides | core/retrieval_gateway.py:520-533 | what a pin returns, and which context a verified pin keeps |
| QuietRequests.LocatedDecides | core/retrieval_gateway.py:954-970 | a snapshot with a context is searched under it, another is verified and its status read |
| QuietRequests.ReadyDecides | core/retrieval_gateway.py:974-1022 | from its preflight on a search is blocked, finds hits of its generation, or fails |
| QuietRequests.VerifiedEnd | core/retrieval_gateway.py:1029-1030 | hits found under a context are returned exactly if the contents are still those of its token, or it has none |
| QuietRequests.QuietSearch | core/retrieval_gateway.py:954-1045 | undisturbed, a search of the current contents returns what they hold for it, unless blocked |
| UnverifiedSearches.QuietSearchSeesOneVersion | core/retrieval_gateway.py:954-1032 | if no other request stores a token of the snapshot from the end of the search's first verification on, both verifications saw one token and all evidence is computed from that version |
| UnverifiedSearches.OnlyRestoringMixes | core/retrieval_gateway.py:599-607 | if the two tokens of a search without a context differ, another request's scan stored a token of the snapshot in between |
| UnverifiedSearches.TokensDifferIff | core/retrieval_gateway.py:599-607 | the two tokens differ exactly if the token stored for the snapshot at the search's last comparison is no longer its first |
| UnverifiedSearches.UnverifiedSearchMixesVersions | core/retrieval_gateway.py:954-1032 | a run whose evidence is of neither verified version |
| RankFusion.DocumentsPass | core/retrieval_gateway.py:1100-1106 | the first dictionary pass, every document hit adding its term |
| RankFusion.PassagesPass | core/retrieval_gateway.py:1107-1119 | the second pass, only a document's first passage adding its term and text |
| RankFusion.Fuse | core/retrieval_gateway.py:1098-1123 | the result is the stable sort of the exact rows, cut to at least one row |
| RankFusion.PassesAreExact | core/retrieval_gateway.py:1100-1119 | the dictionary holds one row for each key, in order of first appearance, with the sum of all its document terms and its best passage term |
| FusionScores.KeysAre | core/retrieval_gateway.py:1102-1109 | what a document and a passage are known by |
| FusionScores.RowIsMadeOf | core/retrieval_gateway.py:1100-1119 | a row's score in numbers: the reciprocals of 60 plus each place among the documents and plus the first among the passages; its filename and at most 500 characters of passage |
| FusionScores.RowsDescend | core/retrieval_gateway.py:1120-1123 | of two rows of the result the earlier has the higher score or, with the same one, no greater filename, character by character |
| FusionScores.TopIsHead | core/retrieval_gateway.py:1123 | the result is the head of the ranking with as many rows as wanted, at least one |
| FusionLaws.RankingIsExact | core/retrieval_gateway.py:1120-1123 | one row for every non-empty key of either channel, ordered by score, filename, first appearance |
| FusionLaws.DocumentMovesUp | core/retrieval_gateway.py:1098-1123 | moving a document hit up past another document never lowers its fused place |
| FusionLaws.PassageMovesUp | core/retrieval_gateway.py:1098-1123 | moving any passage hit up past another document never lowers its document's fused place |
| Packing.ChunkText | kb-agent/kb_optimize.py:70-88 | for any maximum, also zero or negative, the loop computes the greedy packing, nothing, or raises |
| Packing.CutHard | kb-agent/kb_optimize.py:78-79 | a paragraph too long for a chunk is cut into consecutive pieces; a step of zero raises, a negative one gives none |
| Packing.NoChunkTooLong | kb-agent/kb_optimize.py:70-88 | no chunk is empty or longer than the maximum |
| Packing.CharactersConserved | kb-agent/kb_optimize.py:70-88 | but for line breaks, the chunks in order are exactly the paragraphs in order |
| Packing.ConservedIff | kb-agent/kb_optimize.py:70-88 | for any maximum, there are chunks that spell the paragraphs exactly if it is positive or there is nothing to spell |
| Packing.ChunksAreGroups | kb-agent/kb_optimize.py:81-87 | when every paragraph fits, the chunks are an order-preserving grouping |
| Packing.FewestChunks | kb-agent/kb_optimize.py:81-87 | no order-preserving grouping that fits has fewer groups |
| Packing.ResultDecides | kb-agent/kb_optimize.py:70-88 | a maximum of zero raises exactly if there is a paragraph, a negative one gives nothing |
| Packing.PieceIsAt | kb-agent/kb_optimize.py:78-79 | the k-th piece of a cut is the stretch of the maximal length from k times that on |
| Packing.PieceCount | kb-agent/kb_optimize.py:78-79 | there are as many pieces as it takes |
| Packing.LongParagraphApart | kb-agent/kb_optimize.py:74-80 | a paragraph too long is cut by itself and the paragraphs on its sides are packed apart |
| Packing.GreedyFills | kb-agent/kb_optimize.py:81-87 | no group could have taken the first paragraph of the next |
| Chunking.ChunkText | core/vector_store.py:15-29 | the loop computes the overlapping windows, when it terminates |
| Chunking.WindowIsAt | core/vector_store.py:21-28 | the k-th chunk is the stretch of the chunk size from k steps on, or what is left |
| Chunking.WindowCount | core/vector_store.py:21-28 | there are chunks up to the first that reaches the end of the text |
| Chunking.ShortIsOneWindow | core/vector_store.py:15-29 | a text that fits is one chunk |
| Chunking.TerminatesIff | core/vector_store.py:23-28 | the loop ends exactly if the overlap is smaller than the chunk or the first window holds the text |
| Chunking.TextIsRebuilt | core/vector_store.py:15-29 | dropping the first overlap characters of every later chunk rebuilds the text |
| Chunking.CoverageIff | core/vector_store.py:15-29 | all stretches of a length lie inside one chunk exactly if it is at most the overlap plus one, or there is one chunk |
| TimeSpans.ParseTimeRanges | kb-agent/nlu.py:804-830 | the loops compute the selection, and its expressions come sorted by start |
| TimeSpans.Shielded | kb-agent/nlu.py:818-819 | a match is skipped exactly if it overlaps a selected span |
| TimeSpans.ParseTime | kb-agent/nlu.py:833-839 | the first expression in text order, or none |
| TimeSpans.GreedyIsUnique | kb-agent/nlu.py:814-828 | there is only one greedy choice |
| TimeSpans.SelectionIsGreedy | kb-agent/nlu.py:814-828 | the selection is that choice: an expression is dropped exactly if it overlaps one accepted earlier in rule order |
| TimeSpans.DisjointAndMaximal | kb-agent/nlu.py:814-828 | selected spans are disjoint, and every expression is selected or overlaps a selected one |
| TimeSpans.LaterRuleOnlyAdds | kb-agent/nlu.py:814-828 | a rule added at the end neither removes nor alters a selected expression |
| TimeSpans.InTextOrder | kb-agent/nlu.py:829-830 | each span ends before the next begins |
| TimeSpans.SelectedTell | kb-agent/nlu.py:820-828 | each selected expression is that of a match: its value, its own text, the zone at its place |
| TimeSpans.OverlapIsShared | kb-agent/nlu.py:818 | two spans that are not empty overlap exactly if they share a place |
| Inheritance.ApplyInheritance | kb-agent/splitter.py:474-546 | the loop gives every clause the times, source and attributes of the recursive specification |
| Inheritance.UseGroup | kb-agent/splitter.py:504-523 | a main clause extends, replaces or inherits the group |
| Inheritance.GroupStep | kb-agent/splitter.py:495-523 | how each clause moves the group on |
| Inheritance.LabelSources | kb-agent/splitter.py:537-544 | an inheriting clause is labelled with the nearest resolved time clause before it |
| Inheritance.InheritAttributes | kb-agent/splitter.py:525-529 | attributes not named are taken from the context |
| Inheritance.RememberAttributes | kb-agent/splitter.py:530-532 | named attributes become the context |
| InheritanceLaws.CollectedIsDeduplicated | kb-agent/splitter.py:495-503 | a group holds each key once, only times of resolved clauses in its stretch, and one for each of their keys |
| InheritanceLaws.NewGroup | kb-agent/splitter.py:474-478 | after a time clause nothing is inherited from before the previous main clause |
| InheritanceLaws.UnresolvedBlocks | kb-agent/splitter.py:474-478 | unresolved time clauses block inheritance |
| InheritanceLaws.TimesLostIff | kb-agent/splitter.py:469-503 | a resolved time of a stretch is missing from its group exactly if two time clauses of the stretch have one key and different times |
| InheritanceLaws.GroupIsSupplied | kb-agent/splitter.py:495-523 | every inherited time is a time of one of the group's suppliers |
| InheritanceLaws.SuppliersSupply | kb-agent/splitter.py:495-523 | every supplier of a group has a time of its own in it |
| InheritanceLaws.SuppliersAreEarlier | kb-agent/splitter.py:495-523 | the suppliers of a group stand before the clause that inherits it |
| InheritanceLaws.LabelSuppliesIff | kb-agent/splitter.py:537-544 | the labelled clause is a supplier exactly if no main clause in between replaced the group and no resolved clause of its stretch had its key before |
| InheritanceLaws.MislabelledRun | kb-agent/splitter.py:537-544 | a question whose label names a clause that supplied nothing, its group having been replaced |
| InheritanceLaws.SameKeyRun | kb-agent/splitter.py:501-503 | for any two different times with one key, a question whose label names the second time clause, which supplied nothing |
| InheritanceLaws.ResultTimes | kb-agent/splitter.py:504-523 | what times each clause ends with, by its role and its own time |
| InheritanceLaws.ResultLabel | kb-agent/splitter.py:537-544 | an inheriting clause is labelled with the number of the last resolved time clause before it |
| InheritanceLaws.NearestNames | kb-agent/splitter.py:525-532 | a main clause's attribute is that of the nearest main clause at or before it that names one |
| InheritanceLaws.OwnAttributes | kb-agent/splitter.py:524-532 | a clause that is not main keeps its attributes and inherits none |
| Dependencies.Annotate | kb-agent/splitter.py:378-436 | which clauses each clause waits for, and none outside a chain of steps |
| Dependencies.SupportsAreEarlier | kb-agent/splitter.py:386-394 | the supports of a clause are exactly the supporting clauses before it |
| Dependencies.WaitsForEarlier | kb-agent/splitter.py:395-436 | a clause waits only for earlier clauses, which are supports or main |
| Dependencies.NoCycles | kb-agent/splitter.py:395-436 | no clause waits for itself, however indirectly |
| Dependencies.ChainedIff | kb-agent/splitter.py:377-384 | when there is a chain of steps at all |
| Dependencies.WaitsForMain | kb-agent/splitter.py:394-397 | an output, and a main clause that refers back or calculates in an analysis, waits for the nearest main clause before it |
| Dependencies.WaitsForSupports | kb-agent/splitter.py:386-436 | any other main clause waits for all supporting clauses before it, in order |
| Dependencies.OthersWaitForNothing | kb-agent/splitter.py:389-393 | the rest wait for nothing |
| RateLimiter.Limiter.Allow | agent/agent_limits.py:460-473 | one call: the answer, the wait, and the user's row after it |
| RateLimiter.AtMostTwiceTheLimit | agent/agent_limits.py:460-473 | any half-open interval as long as the window lets through at most twice the limit less one |
| RateLimiter.AtMostTwiceTheLimitEach | agent/agent_limits.py:460-473 | in any mixed run of any users, the same bound holds of the calls of each user |
| RateLimiter.BoundReached | agent/agent_limits.py:460-473 | for every positive limit some calls reach that bound |
| RateLimiter.RetryIsExact | agent/agent_limits.py:468-470 | a denied user's next call is let through exactly from the announced time on |
| RateLimiter.AllowDecides | agent/agent_limits.py:460-473 | when a call is let through, which window it opens or joins, and how long a denied one has to wait |
| RateLimiter.UsersApart | agent/agent_limits.py:464-471 | a user's row depends only on the user's own calls |
| Wilson.IntervalIsExact | agent/v1a_acceptance.py:101-108 | the interval brackets the rate inside the unit interval and its ends are exactly the two roots of the quadratic |
| Wilson.ClampsNeverBind | agent/v1a_acceptance.py:108 | the unclamped ends already lie between 0 and 1 |
| Wilson.EndsSolve | agent/v1a_acceptance.py:104-107 | a value solves the quadratic exactly if it is one of the two ends |
| Wilson.NothingObserved | agent/v1a_acceptance.py:102-103 | with nothing observed the interval is the whole unit interval |

## Left out

- HTTP, SQLite, Elasticsearch, Chroma and Ollama calls, encryption, key files and file writes: an atomic step, an oracle or an abstract function each.
- Sleeping and polling intervals: a wait is any number of re-reads followed by giving up or going on.
- The columns `created_at` and `updated_at` of the ledger and of the outbox, telemetry, latencies and diagnostics.
- ModelCallLedger.Ledger.RecoverUncertain: its contract is of a sweep with no other transaction in between; a sweep mixed with others is the subject of `LedgerLaws.SweepAmongOthers` and, with workers, of the dispatch protocol.
- MemoryStore.Memory.LoadL2: which facts are listed, not their order by update time and id; update times of facts are not modelled.
- MemoryStore.Memory.RecallCandidates: which facts may be handed over, not their order; the keyword and vector searches with their limits are oracles.
- MemoryStore.Memory.ReplayOutbox: which pending rows the fetch returns among rows of equal time is arbitrary; the order by time enters only through the law `OrderlyPassesAgree`.
- RetrievalGateway: the scan inside `verify_snapshot` compares the parts of the identity one by one; its other checks are failures at any moment. `inventory`, `find_document` and `search` follow the same discipline and are not repeated. The age at which a cached snapshot is too old is an oracle.
- GatewayLaws.VerifiedSearchSeesOneVersion: covers what the search itself reads; the preflight status stored in the context was read when the context was made, possibly before its token.
- Scoring and ranking of categories in `route`, model loading and `numpy`.
- RankFusion: scores are reals, so ties that rounding makes or breaks are not modelled; of a row, the key, filename, score and passage text are kept.
- Packing.ChunkText: takes the stripped, non-empty paragraphs; splitting a text at line breaks and stripping is not modelled.
- Chunking.ChunkText: takes the text with its white space normalised and non-negative sizes.
- Inheritance.ApplyInheritance: intents, entities other than the four inherited attributes, and the clearing of an output clause's times when it lists month pairs.
- Dependencies.Annotate: step types, required tools and parameters of steps.
- RateLimiter.Limiter.Allow: the clock is read before the transaction begins, so the law for a clock that never goes back also assumes calls enter in the order of their times; the older limiter on a JSON file is the same arithmetic and not repeated.
- Wilson.WilsonInterval: over the reals with the square root given; rounding is not modelled.
- `CircuitBreaker`, `TokenBudget`, caches, session archives, profile merging, legacy migrations, intent cascades and command-line code: easy, finite or presentation.
