# A model of raglibrarian's hard core

This project models, in Dafny 4.11, the parts of raglibrarian where order, time and
concurrency meet: the lifecycle of a book in Catalog and its transactional outbox, the
fan-out of status events in Edge, the final-answer cache, single flight and evidence
selection of Answer, the admission limits, the refresh tokens of Identity, the
reconciliation of the object store and the bounded retries of a consumer. The proofs
speak about all inputs, all runs and all interleavings, not about samples.

`dafny verify dfyconfig.toml` checks everything.

## How it is built

An operation appears twice: as a method that works step by step, over mutable fields
where the program has them, and as the function or predicate that it is proved to
implement. Lemmas about the functions then cover runs, and say in terms of inputs,
words, rows and actions what each function comes to.

| modules | what they hold |
|---|---|
| `Domain`, `RetryDelay` | the Book aggregate, its facts, and the back-off |
| `Catalog`, `CatalogRepository` | every transaction of Catalog, as a function on the five tables and as a method over them |
| `Lifecycle`, `Reindexability`, `CatalogRuns`, `Requests`, `EdgeStatus` | runs of transactions in any order with any repetition, what commands ask for, and what Edge makes of the events |
| `Outbox`, `OutboxRuns`, `Leases`, `RabbitPublisher` | any number of outbox workers that claim, publish, mark, put off or crash, and what leases mean to them |
| `Pagination` | the listing and its cursors |
| `StatusHub` | the bounded mailbox as a function of an unbounded log |
| `Text`, `Fingerprints` | strings, framings, digests and cache keys |
| `Guards`, `Questions` | what makes two questions ask for the same answer, in terms of their words |
| `Evidence`, `Diversity`, `Output` | what an answer is generated from, and what is accepted from the generator |
| `AnswerCache`, `AnswerCacheRuns`, `LeastRecentlyUsed`, `CacheMetrics` | the cache, its histories, the plain cache it refines, its counters |
| `SingleFlight` | the interleavings of Answer calls from the flight key on |
| `Throttle`, `RateLimit` | the FIFO throttle and the fixed-window limiter |
| `Sessions`, `SessionStore` | refresh-token rotation |
| `Reconciler` | passes over the object store, with everybody else's actions in between |
| `Deliveries` | settlement, retry copies and their conservation |

## What is assumed

- A Postgres transaction is one atomic step; the row locks of the source make it one.
- Generated identifiers, refresh tokens and object references are not drawn twice.
- SHA-256 has no collisions. Unicode tables are a parameter: a letter or number is no
  space, and where ASCII is named, it is as usual. So are the word lists for modes,
  topics and negations; `Fingerprints.ENGLISH` has those of the source.
- Integers are unbounded, except in `RetryDelay`, where 64-bit wrap-around matters.
- The throttle reads its clock under its lock, so its readings do not step back. The
  rate limiter reads it before, so they can; `RateLimit.DecidedAlike` has the exact
  condition under which that matters, and lemmas about intervals of time assume that it
  does not happen. The reconciler shares its clock with the object store.
- The broker returns an unroutable message before it confirms it, if the message is
  mandatory; one that is not is dropped and confirmed.

## What the proofs turned up

Some statements one would like to make are false of the code. Each has its exact
condition and an input that breaks it.

- *A leftover failure detail.* An absorbed ChunksReady still overwrites the manifest. A
  book that failed extraction on a resource limit can so become reindexable, and
  reindexing clears the category but not the detail. Edge refuses the event that
  announces it (`CatalogRuns.EdgeRefusesLeftover`), and no other kind of event
  (`CatalogRuns.EdgeAcceptsAllButLeftovers`).
- *A manifest that moves silently.* The same overwrite changes `can_reindex` without a
  status event (`CatalogRuns.ManifestMovesSilently`), and is the only step that does
  (`Reindexability.SilentExactly`).
- *A status event to nowhere.* Uploads and requests are marked published only after they
  reached a queue (`Outbox.RequestsReachQueues`). Status events are not mandatory: one
  that no queue took is confirmed all the same (`OutboxRuns.StatusEventVanishes`), and
  nothing else is (`Outbox.OnlyStatusEventsVanish`).
- *A status event after the end.* Finalization purges the rows of a book that workers
  may already have claimed. What it purges can be confirmed after the deleted event
  exactly while such a worker has yet to publish it (`Outbox.LateExactly`,
  `OutboxRuns.StatusOvertaken`).
- *Sections that share a group.* A group joins book, chapter and section by NUL
  characters, which tells sections apart as long as their names have none
  (`Diversity.GroupsAreSections`, `Diversity.NulMergesSections`).
- *A throttle that lets one more through.* The interval is rounded down, so a window
  keeps to the configured requests exactly when they divide it
  (`Throttle.LimitKeptExactly`).
- *A back-off that wraps.* From a base of 2^55 ns on, and only then, some attempt has a
  negative delay (`RetryDelay.BackoffIsExact`, `RetryDelay.WrapExample`).
- *A window that the rate limiter forgets.* A reading from before a pruning can find a
  window open that a full table has dropped (`RateLimit.ClockMustNotStepBack`,
  `RateLimit.DecidedAlike`).
- *Principals that share a window.* The rate limiter joins user and role by a colon. Two
  roles can give two principals one key exactly if one of them ends in a colon and the
  other, as for user "a" with role "b:c" and user "a:b" with role "c"
  (`RateLimit.RolesCollideExactly`); without a colon in a role they never do
  (`RateLimit.PrincipalKeyInjective`).
- *Single flight shares more than the cache.* Its key leaves out guard words and the
  embedding profile, so that askers of "c# guide" and "c guide" can share a generation
  that the cache would have refused to share (`SingleFlight.CoalescedWouldHit`,
  `SingleFlight.FlightsIgnoreGuards`). They do have the same evidence.
- *A return that waits for the wrong message.* The retry channel of the consumer is not
  drained before a publication; a late return makes a later copy, confirmed and routed,
  look lost (`Deliveries.LateReturnMisleads`), under an exact condition on the earlier
  publications (`Deliveries.LostOrFound`). The original is then given up although its
  copy lives, as it is after a late confirmation and in no other case
  (`Deliveries.DeadBesideCopy`); nothing is lost by it.
- *An evidence mismatch never happens.* Two of the cache's checks on a hit are implied
  by the key (`AnswerCacheRuns.NeverEvidenceMismatch`).

## Model

| member | source | states |
|---|---|---|
| `Domain.Book.ApplyProcessingFact` | services/catalog-service/internal/catalog/domain.go:158-285 | accepted, absorbed or rejected exactly as the verdict table says; an absorbed or rejected fact leaves every field as it was, an accepted one raises the version by one |
| `Domain.Book.ApplyStarted` | services/catalog-service/internal/catalog/domain.go:163-176 | the first attempt moves a queued book to extracting; later or repeated starts are absorbed |
| `Domain.Book.ApplyChunksReady` | services/catalog-service/internal/catalog/domain.go:177-194 | chunks move a book that is not past them, clear a failure, and conflict with a failed extraction |
| `Domain.Book.ApplyFailed` | services/catalog-service/internal/catalog/domain.go:195-220 | a failed extraction is accepted once with its category and detail, absorbed when repeated, and conflicts with a different one or with chunks |
| `Domain.Book.ApplyIndexed` | services/catalog-service/internal/catalog/domain.go:221-247 | indexing concludes a book that awaits it, once |
| `Domain.Book.ApplyIndexingFailed` | services/catalog-service/internal/catalog/domain.go:248-278 | a failed indexing concludes a book that awaits it, once, with a category of its own list |
| `Domain.Book.TransitionTo` | services/catalog-service/internal/catalog/domain.go:340-374 | the status changes exactly along the declared edges |
| `Domain.FactsKeepShape` | services/catalog-service/internal/catalog/domain.go:158-285 | facts keep the shapes a book may have, leave a deleting or deleted book untouched, and each accepted one moves the stage strictly forward |
| `Domain.AtMostThreeChanges` | services/catalog-service/internal/catalog/domain.go:158-285 | any number of facts, in any order, changes a book at most three times within one lifecycle version |
| `Domain.FactsAreConfluent` | services/catalog-service/internal/catalog/domain.go:158-285 | of first attempts and of reindexings: any order and repetition of the facts of one story is never rejected, and ends in that story's outcome exactly when its concluding fact is among them |
| `Domain.EndsAreFinal` | services/catalog-service/internal/catalog/domain.go:158-285 | the end of a story accepts no further fact of its lifecycle version, and refuses one as a conflict exactly if it is malformed or contradicts that end |
| `Domain.FirstOutcomeWins` | services/catalog-service/internal/catalog/domain.go:177-278 | before that the first outcome wins, but a failed extraction after chunks, which is a conflict |
| `Domain.DeletedBooksAnswer` | services/catalog-service/internal/catalog/domain.go:158-285 | a book under deletion absorbs what it has heard, refuses the rest, and tells an invalid transition from a conflict |
| `Domain.CanReindexExactly` | services/catalog-service/internal/catalog/domain.go:147-156 | a book with a manifest can be reindexed exactly if it is indexed or failed for a reason that is not about the document, its manifest or the profile |
| `RetryDelay.BackoffIsExact` | pkg/retrydelay/retrydelay.go:6-21 | the delay is min(maximum, base * 2^min(attempt, 8)) for every attempt exactly if the base is below 2^55 ns; from there on some attempt wraps to a negative delay |
| `RetryDelay.WrapExample` | pkg/retrydelay/retrydelay.go:6-21 | a policy for which the delay is negative |
| `RetryDelay.BackoffGrows` | pkg/retrydelay/retrydelay.go:6-21 | for a base below 2^55 ns the delay lies between base and maximum and never shrinks |
| `CatalogRepository.Repository.Create` | services/catalog-service/repository/postgres_book_repository.go:66-100 | the book and its events are inserted together, under both unique constraints, or not at all |
| `CatalogRepository.Repository.AllocateSequence` | services/catalog-service/repository/postgres_book_repository.go:238-241 | the next sequence of a book is one more than its largest, 0 without rows |
| `CatalogRepository.Repository.ApplyProcessingEvent` | services/catalog-service/repository/postgres_book_repository.go:159-260 | screening by inbox, book and lifecycle version, then the fact, its status event and its receipt in one transaction |
| `CatalogRepository.Repository.ApplyToBook` | services/catalog-service/repository/postgres_book_repository.go:203-260 | the part of it behind the screens, with the manifest that even an absorbed ChunksReady overwrites |
| `CatalogRepository.Repository.ApplyLifecycleCommand` | services/catalog-service/repository/postgres_book_repository.go:262-397 | a command is accepted once under its identifier, raises lifecycle and processing version, and writes its request and status events side by side |
| `CatalogRepository.Repository.Direct` | services/catalog-service/repository/postgres_book_repository.go:304-325 | what reindexing and deletion do to the aggregate, and when they are refused |
| `CatalogRepository.Repository.MarkOriginalDeleted` | services/catalog-service/repository/postgres_book_repository.go:404-449 | sets its flag on a deleting book of that command and version, and finalizes when it is the last |
| `CatalogRepository.Repository.ApplyLifecycleAck` | services/catalog-service/repository/postgres_book_repository.go:479-552 | sets the flag of its kind once for each acknowledgement identifier, fenced by command and version, and finalizes when it is the last |
| `CatalogRepository.Repository.FinalizeDeletion` | services/catalog-service/repository/postgres_book_repository.go:554-614 | purges the book's outbox rows and writes the tombstone and one deleted event at sequence 0 |
| `CatalogRepository.Repository.ClaimOutbox` | services/catalog-service/repository/postgres_book_repository.go:659-688 | leases claimable rows, a full batch unless there are no more, those due earliest first, then those that occurred earliest, then by sequence |
| `CatalogRepository.Repository.MarkPublished` | services/catalog-service/repository/postgres_book_repository.go:690-693 | marks the row whoever holds its lease |
| `CatalogRepository.Repository.RetryOutbox` | services/catalog-service/repository/postgres_book_repository.go:695-703 | puts the row off by the capped back-off of its attempts, whoever holds its lease |
| `Lifecycle.StepKeeps` | services/catalog-service/repository/postgres_book_repository.go:159-614 | every transaction keeps the invariant of tables, ledger and recorded changes |
| `Lifecycle.RunKeeps` | services/catalog-service/repository/postgres_book_repository.go:159-614 | so does every sequence of transactions, with any events, commands and acknowledgements in any order |
| `Lifecycle.GenerationIsFree` | services/catalog-service/repository/postgres_book_repository.go:335-340 | the (book, lifecycle version) index never stops an accepted command |
| `Lifecycle.FinalizeSucceeds` | services/catalog-service/repository/postgres_book_repository.go:554-614 | finalization finds its command row and a free key whenever the third flag is set |
| `CatalogRuns.EventsChangeOnce` | services/catalog-service/repository/postgres_book_repository.go:159-260 | one event identifier changes a book at most once |
| `CatalogRuns.RedeliveriesStayInert` | services/catalog-service/repository/postgres_book_repository.go:159-260 | a committed event is inert in every continuation, and answered with success exactly if type and digest are those received, else as a conflict |
| `CatalogRuns.StaleEventsStayFenced` | services/catalog-service/repository/postgres_book_repository.go:200-202 | an event older than the book's lifecycle version is inert in every continuation |
| `CatalogRuns.OtherContentStaysOut` | services/catalog-service/repository/postgres_book_repository.go:197-199 | so is an event that was made from other content than the book's, which never changes |
| `CatalogRuns.AcksStayInert` | services/catalog-service/repository/postgres_book_repository.go:479-552 | so is an acknowledgement whose identifier is known, with success exactly if type and digest are those received |
| `Requests.CommandsAcceptedExactly` | services/catalog-service/repository/postgres_book_repository.go:300-340 | a new command is accepted exactly if its book can be deleted, not being under deletion yet, or can be reindexed |
| `Requests.AcceptedCommands` | services/catalog-service/repository/postgres_book_repository.go:322-391 | it raises both versions by one, and asks behind all rows of the book for the manifest that the book has, or for its deletion; the status event follows at the next sequence |
| `Requests.CommandsStayInert` | services/catalog-service/repository/postgres_book_repository.go:280-296 | a known command changes nothing in any continuation, and is a success while no later command moved its book, a conflict then, and refused under another book or kind |
| `Requests.OriginalStaysGone` | services/catalog-service/repository/postgres_book_repository.go:420-429 | a repeated report that the original is gone is a success without effect in every continuation |
| `Requests.RequestsAreTold` | services/catalog-service/repository/postgres_book_repository.go:300-391 | in every reachable state each request in the table asks for what an accepted command of its book said, each accepted command of a book that is not deleted has exactly one request, each upload announces its book's content, and no digest of a manifest stands without its reference |
| `CatalogRuns.VersionsAreConsecutive` | services/catalog-service/repository/postgres_book_repository.go:211-246 | a live book's status events carry the versions 1, 2, ... in the order of their sequences; the newest shows the book as it is, and whether it can be reindexed exactly if an even number of silent steps have come since |
| `Reindexability.SilentExactly` | services/catalog-service/repository/postgres_book_repository.go:207-252 | in every reachable state a step changes whether a book can be reindexed without a status event exactly if it is an absorbed ChunksReady that gives a manifest to, or takes it from, a book that is indexed or failed for a reindexable reason |
| `Reindexability.StepTold` | services/catalog-service/repository/postgres_book_repository.go:211-227 | every status event that is written tells whether the book can then be reindexed |
| `Reindexability.CurrentIfEven` | services/catalog-service/repository/postgres_book_repository.go:207-252 | over any run the newest event stays current exactly while the silent steps since are even in number |
| `CatalogRuns.ManifestMovesSilently` | services/catalog-service/repository/postgres_book_repository.go:247-252 | a run after which a book can be reindexed and its newest event denies it |
| `CatalogRuns.DeletedIffAllGone` | services/catalog-service/repository/postgres_book_repository.go:404-614 | a book is deleted exactly when all three flags are set, and its ledger then ends in its one deleted event |
| `CatalogRuns.DeletionConverges` | services/catalog-service/repository/postgres_book_repository.go:404-614 | under deletion a book is fixed by which parties were heard: short of all three the deleting row with those flags, with all three the one tombstone, announced once; nothing else moves it |
| `CatalogRuns.EdgeAcceptsAllButLeftovers` | services/edge-api/bookstatus/consumer.go:127-229 | Edge accepts every status event ever committed, except exactly those of reindexing or deleting at chunks_ready with a failure detail left over |
| `CatalogRuns.EdgeRefusesLeftover` | services/catalog-service/repository/postgres_book_repository.go:247-252 | a run that reaches such an event |
| `EdgeStatus.ShapeIsValidUnlessLeftover` | services/edge-api/bookstatus/consumer.go:127-229 | which shapes of a book, versions and lifecycle versions Edge accepts |
| `Outbox.PathSound` | services/catalog-service/repository/postgres_book_repository.go:659-703 | transactions, claims, publications, marks, retries and crashes of any number of workers keep the order and the bookkeeping |
| `Outbox.ConfirmedInOrder` | services/catalog-service/repository/postgres_book_repository.go:659-703 | when an event is confirmed, every event of its book with a smaller sequence was confirmed before it, up to the purge |
| `Outbox.LateExactly` | services/catalog-service/repository/postgres_book_repository.go:592-594 | a purged event can still be confirmed, after the deleted event of its book, exactly if a worker that claimed it has yet to publish it |
| `OutboxRuns.StatusOvertaken` | services/catalog-service/repository/postgres_book_repository.go:592-594 | a run from the empty database that confirms a status event after the deleted event of its book |
| `Outbox.NothingIsLost` | services/catalog-service/outbox/worker.go:81-124 | every committed event is confirmed, or unpublished in the table as it was written, or purged with its deleted book |
| `Outbox.RequestsReachQueues` | services/catalog-service/outbox/worker.go:81-137 | every committed upload, reindex or deletion request has reached a queue, or is unpublished in the table as it was written, or was purged with its deleted book |
| `Outbox.OnlyStatusEventsVanish` | services/catalog-service/outbox/worker.go:126-137 | over every run, whatever is confirmed and reached no queue is a status event on its way to Edge |
| `OutboxRuns.StatusEventVanishes` | services/catalog-service/outbox/worker.go:126-137 | a run from the empty database that confirms a status event which reached no queue |
| `Outbox.ClaimsTakeOnePerBook` | services/catalog-service/repository/postgres_book_repository.go:659-688 | rows that can be claimed together belong to different books |
| `Outbox.HeadBecomesClaimable` | services/catalog-service/repository/postgres_book_repository.go:659-688 | the first unpublished row of a book can be claimed once retry time and leases have passed, whoever held them |
| `Leases.RowStep` | services/catalog-service/repository/postgres_book_repository.go:659-703 | all that a step of the protocol can do to a row that stays: mark it, put it off and count that, or lease it |
| `Leases.LeasesExclude` | services/catalog-service/repository/postgres_book_repository.go:659-693 | over every run a row is claimed again, unless marked or put off in between, only when all earlier leases on it have run out |
| `Leases.PutOffWaits` | services/catalog-service/repository/postgres_book_repository.go:695-703 | a row that was put off is not claimed before that time |
| `Leases.MarkedIsDone` | services/catalog-service/repository/postgres_book_repository.go:690-693 | a row that was marked is never claimed again |
| `Leases.AttemptsAreCounted` | services/catalog-service/repository/postgres_book_repository.go:695-703 | a row's attempts, which set its next delay, are the times that it was put off |
| `Outbox.Deployment.PublishPending` | services/catalog-service/outbox/worker.go:81-124 | a pass claims and then, event by event, publishes by its route and marks or puts off, until the batch or the budget is spent; whatever others do meanwhile it is a run of the protocol |
| `Outbox.Deployment.PublishOne` | services/catalog-service/outbox/worker.go:92-122 | a confirmed publication is marked, any other is put off |
| `RabbitPublisher.RabbitPublisher.AwaitRoutedConfirmation` | services/catalog-service/outbox/rabbit_publisher.go:48-98 | success means acknowledged, and routed if mandatory; refusal means not so; only the deadline or the end of the connection leaves it open |
| `RabbitPublisher.ReconnectingPublisher.PublishWithContext` | services/catalog-service/outbox/rabbit_publisher.go:114-140 | the same over all reconnections: any failure discards the channel, so no later message is confirmed or refused by an old notice |
| `Pagination.List` | services/catalog-service/repository/postgres_book_repository.go:102-141 | a page is the first books of the listing behind the cursor; its token is there exactly when more follow, and a malformed token is refused |
| `Pagination.OnePage` | services/catalog-service/repository/postgres_book_repository.go:116-141 | only one page fits that description |
| `Pagination.WalkIsStable` | services/catalog-service/repository/postgres_book_repository.go:102-141 | a walk over a table that changes under it shows no book twice, in descending order, and once finished has shown every book that stood throughout |
| `Pagination.WalkShowsTheShelf` | services/catalog-service/repository/postgres_book_repository.go:102-141 | in terms of the table: newest first, no book that is deleted or not there at the time of its page, and in the end every book that was there all along |
| `Pagination.TokensRefusedExactly` | services/catalog-service/repository/postgres_book_repository.go:105-115 | a token is refused exactly if it is garbled, of another version, or names no book or no time |
| `Pagination.WalkVisitsAll` | services/catalog-service/repository/postgres_book_repository.go:102-141 | over an unchanged table a finished walk is the listing of all books not deleted |
| `Pagination.WalkAdvances` | services/catalog-service/repository/postgres_book_repository.go:133-141 | every page but the last is full |
| `Pagination.WalkEnds` | services/catalog-service/repository/postgres_book_repository.go:133-141 | an unfinished walk of k pages has shown k * size books, fewer than there are |
| `StatusHub.QueueAppends` | services/edge-api/handler/book_events.go:103-123 | queueing on the bounded mailbox is appending to the unbounded log of events since the last drain |
| `StatusHub.NothingIsMissed` | services/edge-api/handler/book_events.go:91-183 | an event published to a live subscriber is at all later times drained, superseded by a newer one, covered by a resync, or still pending so; pending stays within its bound and a writer is never left asleep beside a mailbox that is not empty |
| `StatusHub.Hub.QueueEvent` | services/edge-api/handler/book_events.go:103-130 | the mailbox after queueing, and the wake token whenever it changed |
| `StatusHub.Hub.Publish` | services/edge-api/handler/book_events.go:91-101 | every live subscriber takes the event |
| `StatusHub.Hub.Subscribe` | services/edge-api/handler/book_events.go:132-149 | refused exactly when the hub is unavailable or one of three limits is reached; the tallies stay exact |
| `StatusHub.Hub.Remove` | services/edge-api/handler/book_events.go:149-165 | removal releases the tallies and closes the channel once |
| `StatusHub.Hub.SetAvailable` | services/edge-api/handler/book_events.go:70-86 | losing the broker ends every stream |
| `StatusHub.Hub.DrainSubscriber` | services/edge-api/handler/book_events.go:167-183 | a drain hands out the whole mailbox and empties it |
| `Text.FramedInjective` | services/answer-service/internal/application/cache.go:671-678 | length-prefixed framing tells any two lists of values apart |
| `Text.QuotedInjective` | services/answer-service/internal/application/cache.go:600-656 | so does %q quoting, one value after the other |
| `Text.JoinCancels` | services/answer-service/internal/application/cache.go:369-371 | joining words without spaces is injective |
| `Text.SortEqual` | services/answer-service/internal/application/cache.go:600-607 | sorted tags are equal exactly for permutations |
| `Fingerprints.NormalizedDetermines` | services/answer-service/internal/application/cache.go:369-447 | equal normalized queries have equal words, hence equal modes and topics |
| `Fingerprints.EvidenceInjective` | services/answer-service/internal/application/cache.go:650-669 | equal context digests are equal evidence in equal order |
| `Fingerprints.FiltersInjective` | services/answer-service/internal/application/cache.go:600-616 | the filter digest forgets the order of tags and nothing else |
| `Fingerprints.ScopeInjective` | services/answer-service/internal/application/cache.go:618-622 | equal scopes are equal actors |
| `Fingerprints.ProfileInjective` | services/answer-service/internal/application/cache.go:624-637 | equal profiles are equal versions, generator profiles and limits |
| `Fingerprints.DigestsSeparate` | services/answer-service/internal/application/cache.go:600-669 | the four digests of the cache are told apart exactly by what they digest |
| `Fingerprints.KeyInjective` | services/answer-service/internal/application/cache.go:301-311 | equal keys agree on actor, filters up to tag order, limit, score bound, retrieval profile and evidence |
| `Guards.GuardsTellApart` | services/answer-service/internal/application/cache.go:478-564 | two questions can normalize alike and differ in their guards |
| `Questions.WordsAreRead` | services/answer-service/internal/application/cache.go:402-412 | the words of a question are those that it is made of, one after the other |
| `Questions.TopicsAreContent` | services/answer-service/internal/application/cache.go:373-400 | two questions have equal topics exactly if they share all words that are on none of the lists |
| `Questions.ModesAreSame` | services/answer-service/internal/application/cache.go:414-447 | equal modes exactly if they use words of the same lists |
| `Questions.GuardsAreTurns` | services/answer-service/internal/application/cache.go:478-564 | equal guards exactly if the same negations, numbers and symbolic names turn them |
| `Questions.SubjectsTellApart` | services/answer-service/internal/application/cache.go:373-400 | two English questions with equal modes and guards and other content |
| `Evidence.SelectionIsSound` | services/answer-service/internal/application/evidence.go:45-154 | count and byte budgets, unique identifiers and passages, distinct groups in the first pass, only represented groups in the second, and maximality, for any candidates |
| `Evidence.SecondPassJoins` | services/answer-service/internal/application/evidence.go:98-103 | a pick of the second pass joins a group that is there |
| `Evidence.PassExhausts` | services/answer-service/internal/application/evidence.go:89-103 | a candidate that was offered is not admissible any more, unless a first pass held its group against it |
| `Evidence.FilterKeepsOrder` | services/answer-service/internal/application/evidence.go:16-43 | filtering result by result and document by document is filtering the candidates in order |
| `Diversity.FilterExactly` | services/answer-service/internal/application/evidence.go:16-43 | exactly the pieces that reach the bound stay, in their order, and all of them for a bound that is not positive |
| `Diversity.GroupsAreSections` | services/answer-service/internal/application/evidence.go:144-154 | two pieces are of one group exactly if they are of one section of one chapter of one book, a book without identifier going by its title, as long as there is no NUL in these names |
| `Diversity.NulMergesSections` | services/answer-service/internal/application/evidence.go:144-154 | two sections of different chapters that a NUL makes one group |
| `Diversity.SelectionIsGreedy` | services/answer-service/internal/application/evidence.go:45-124 | what is selected from a search, pinned down: in the order of results and documents, first every piece for which there is room and whose section has no pick yet, then every piece for which there is still room |
| `Diversity.SelectionIsDiverse` | services/answer-service/internal/application/evidence.go:89-105 | the first picks are of different sections, any later one is of a section that they have, none is taken while there is room for a new section, and in the end there is room for nothing |
| `Evidence.Selector.Offer` | services/answer-service/internal/application/evidence.go:53-87 | one offer, with all its refusals in order, is the specification's |
| `Evidence.SelectEvidence` | services/answer-service/internal/application/evidence.go:45-105 | both passes over the listed candidates |
| `Evidence.ListCandidates` | services/answer-service/internal/application/evidence.go:107-124 | results first, then the documents' evidence |
| `Evidence.FilterSearch` | services/answer-service/internal/application/evidence.go:16-43 | the score bound |
| `Output.ValidateSegments` | services/answer-service/internal/application/output.go:13-53 | accepted exactly when every segment and the total are acceptable, and then grounded segment by segment |
| `Output.CheckCitations` | services/answer-service/internal/application/output.go:39-49 | citations are evidence, none twice |
| `Output.GroundedSegmentText` | services/answer-service/internal/application/output.go:55-79 | the text behind the location of the first cited evidence |
| `Output.ShownIsSafe` | services/answer-service/internal/application/output.go:13-102 | what is shown has no control, format or line separator character, whatever the evidence is called, ends in the text that was checked, and cites evidence once each |
| `Output.AcceptableExactly` | services/answer-service/internal/application/output.go:13-53 | accepted exactly if there are segments, not too many, each with a text of allowed characters that is not blank and with citations, not too many, of evidence, none twice, and if all of it is not too long as it would be shown |
| `Output.LocationTells` | services/answer-service/internal/application/output.go:55-85 | the location has the words of the title, of an author if there is one, and pages if there are any |
| `Output.PagesAreTold` | services/answer-service/internal/application/output.go:87-95 | the text of a page range tells which range it is |
| `Output.RenderingTwiceDiffers` | services/answer-service/internal/application/service.go:251-266 | grounding is not idempotent, so what is kept must be the raw segments |
| `Output.SummarizeSegments` | services/answer-service/internal/application/output.go:104-121 | the summary, within its bound |
| `Output.SummaryKeepsWords` | services/answer-service/internal/application/output.go:104-115 | a summary that fits holds the words of all segments in order |
| `Output.SummaryIsCut` | services/answer-service/internal/application/output.go:116-121 | one that does not fit has the first words, the last perhaps in part, as far as they fit, and an ellipsis |
| `AnswerCache.Cache.Find` | services/answer-service/internal/application/cache.go:143-182 | a lookup prunes, takes the first entry that hits, moves it to the end, and otherwise reports the preferred reason |
| `AnswerCache.Cache.Keep` | services/answer-service/internal/application/cache.go:212-241 | a store of a cacheable answer |
| `AnswerCache.Cache.Put` | services/answer-service/internal/application/cache.go:223-241 | a store prunes, replaces its equivalent or evicts the least recently used when full, and counts |
| `AnswerCache.Cache.PruneExpired` | services/answer-service/internal/application/cache.go:751-768 | exactly the live entries stay, in order |
| `AnswerCache.Cache.Touch` | services/answer-service/internal/application/cache.go:726-733 | the entry moves to the end, the others keep their order |
| `AnswerCacheRuns.HitIsFaithful` | services/answer-service/internal/application/cache.go:143-182 | a hit rests on one store younger than the TTL under an equal key, whose question turns on the same guard words, uses the mode lists alike, shares all words on no list, and means as much or is the same; and it renders what that store's answer rendered |
| `AnswerCacheRuns.HitsExactly` | services/answer-service/internal/application/cache.go:346-367 | the comparison of two questions succeeds exactly if they are alike in these words, and any reason it gives otherwise is one |
| `AnswerCacheRuns.OtherSubjectsMiss` | services/answer-service/internal/application/cache.go:346-400 | a question with a word on no list that no stored question has, or without one that all have, is not answered from the cache |
| `AnswerCacheRuns.RustIsNotGo` | services/answer-service/internal/application/cache.go:346-400 | for one, an answer about go is not given to a question about rust |
| `AnswerCacheRuns.ReasonIsTold` | services/answer-service/internal/application/cache.go:143-210 | without a hit the reason is the first of guards, modes, topics and meaning in which a live entry of the key differs, or else that entries just expired, that the cache was empty, or that all have other keys |
| `AnswerCacheRuns.BypassExactly` | services/answer-service/internal/application/cache.go:325-329 | bypassed exactly with a blank profile or an embedding that is not like itself |
| `AnswerCacheRuns.NeverEvidenceMismatch` | services/answer-service/internal/application/cache.go:169-176 | no lookup ever reports an evidence mismatch |
| `AnswerCacheRuns.EqualKeysRevalidate` | services/answer-service/internal/application/cache.go:680-712 | under an equal key the citations are there and unchanged |
| `AnswerCacheRuns.StoreIsFound` | services/answer-service/internal/application/cache.go:143-241 | the call that stored hits until the TTL, perhaps by another entry |
| `AnswerCacheRuns.StoreKeepsOthers` | services/answer-service/internal/application/cache.go:223-241 | a store displaces no live entry but one with its key and words, or the longest unused one of a full cache |
| `AnswerCacheRuns.ClassesAreQuestions` | services/answer-service/internal/application/cache.go:720-724 | two stores stand for one question exactly if key and words agree |
| `LeastRecentlyUsed.CacheIsTheTable` | services/answer-service/internal/application/cache.go:143-268 | over all histories the cache answers as a table with time stamps of last use does, holds its entries in that order, one for each class, within capacity |
| `LeastRecentlyUsed.LookupRefines` | services/answer-service/internal/application/cache.go:159-180 | a lookup takes the longest unused of the entries that hit |
| `LeastRecentlyUsed.AdmitRefines` | services/answer-service/internal/application/cache.go:225-241 | a store into a full cache costs the longest unused entry |
| `CacheMetrics.StoresAddUp` | services/answer-service/internal/application/cache.go:212-268 | stores are live entries, evictions, expirations and replacements |
| `CacheMetrics.SequenceDetermines` | services/answer-service/internal/application/cache.go:255-268 | equal sequences are equal snapshots |
| `CacheMetrics.RecorderShowsNewest` | services/answer-service/internal/metrics/metrics.go:112-123 | whatever the order of delivery, the recorder shows the newest snapshot delivered |
| `CacheMetrics.CountersNeverFall` | services/answer-service/internal/metrics/metrics.go:112-123 | its counters never decrease |
| `CacheMetrics.Recorder.CacheOperational` | services/answer-service/internal/metrics/metrics.go:112-123 | an older snapshot is ignored, any other shown whole |
| `SingleFlight.TableStep` | services/answer-service/internal/application/service.go:201-331 | every action of every call keeps the invariant |
| `SingleFlight.SingleFlightIsSafe` | services/answer-service/internal/application/service.go:201-331 | over every interleaving at most one owner for each flight key, no ready channel closed twice and that of a finished leader closed once, generations within the concurrency |
| `SingleFlight.FollowersGetTheOutcome` | services/answer-service/internal/application/service.go:201-269 | a follower replies what its leader replies: the same rendering, or no answer |
| `SingleFlight.RepliesAreEarned` | services/answer-service/internal/application/service.go:220-269 | over every run a call keeps the reply that its own action earned: the rendering if what the generator returned is acceptable, no answer if it is not, if the generator failed or if there was no permit |
| `SingleFlight.RepliesComeFromActions` | services/answer-service/internal/application/service.go:201-269 | and no call has a reply that no such action, nor its leader, gave it |
| `SingleFlight.WakeKeeps` | services/answer-service/internal/application/service.go:203-219 | a follower's revalidation cannot fail, so it never goes on to lead |
| `SingleFlight.OwnersProceed` | services/answer-service/internal/application/service.go:220-269 | an owner can always act, each action a step nearer its end |
| `SingleFlight.WaitedForHasOwner` | services/answer-service/internal/application/service.go:287-331 | a call that is waited for has an owner that will close it, or is closed |
| `SingleFlight.SameFlightSameRendering` | services/answer-service/internal/application/cache.go:313-323 | the flight key fixes the evidence |
| `SingleFlight.CoalescedWouldHit` | services/answer-service/internal/application/cache.go:313-323 | whom the flight key brings together, the cache would have answered exactly if the same turns their questions and their embedding profiles agree |
| `SingleFlight.FlightsIgnoreGuards` | services/answer-service/internal/application/cache.go:57-61 | they need not |
| `SingleFlight.AnswerInflight.Wait` | services/answer-service/internal/application/service.go:287-302 | joins the call in flight, or opens one |
| `SingleFlight.AnswerInflight.FillCall` | services/answer-service/internal/application/service.go:304-311 | the outcome is stored under the mutex |
| `SingleFlight.AnswerInflight.CloseReady` | services/answer-service/internal/application/service.go:311-314 | the channel is closed outside of it |
| `SingleFlight.AnswerInflight.Done` | services/answer-service/internal/application/service.go:317-331 | the deferred end closes what is still open and forgets the call |
| `Throttle.ThrottleIsSafe` | services/answer-service/internal/throttle/limiter.go:44-150 | over every run grants are an interval apart and in order of arrival, only its own step takes a call out of the queue, and a window holds at most its length over the interval, rounded up |
| `Throttle.LimitKeptExactly` | services/answer-service/internal/throttle/limiter.go:22-42 | a window never holds more than the configured requests exactly when they divide the window or outnumber its nanoseconds |
| `Throttle.StepKeeps` | services/answer-service/internal/throttle/limiter.go:44-150 | arrivals, cancellations and wake-ups keep queue, grants and targets |
| `Throttle.Limiter.Enqueue` | services/answer-service/internal/throttle/limiter.go:56-60 | a reservation joins at the end and every target is set anew |
| `Throttle.Limiter.TryServe` | services/answer-service/internal/throttle/limiter.go:63-84 | let through exactly at the head and when due |
| `Throttle.Limiter.Withdraw` | services/answer-service/internal/throttle/limiter.go:94-103 | a cancelled call takes its own reservation out |
| `Throttle.Limiter.Rebalance` | services/answer-service/internal/throttle/limiter.go:142-150 | targets an interval apart, none before the next free time |
| `RateLimit.PrincipalRateLimiter.Allow` | services/edge-api/middleware/rate_limit.go:110-139 | empty principals are refused; any other call is the bounded limiter's |
| `RateLimit.PrincipalRateLimiter.AllowKey` | services/edge-api/middleware/rate_limit.go:119-139 | one attempt of a key |
| `RateLimit.DecidedAlike` | services/edge-api/middleware/rate_limit.go:119-139 | from matching tables a call that is not turned away is decided as by a limiter with room for all, exactly unless its window was forgotten, is open at the reading and is used up |
| `RateLimit.BoundedRefinesUnbounded` | services/edge-api/middleware/rate_limit.go:120-139 | within maxKeys keys, and deciding as that limiter after any calls of which none is read off the clock before an earlier pruning |
| `RateLimit.SteadyClockRefines` | services/edge-api/middleware/rate_limit.go:115-139 | on a clock that does not step back every call after any calls is decided as by that limiter, unless it finds the table full |
| `RateLimit.ClockMustNotStepBack` | services/edge-api/middleware/rate_limit.go:115-130 | a reading from before a pruning breaks this |
| `RateLimit.AdmissionsAreBounded` | services/edge-api/middleware/rate_limit.go:119-139 | over every run of the limiter with its bounded table a key gets at most the limit in each window and twice the limit in any interval as long |
| `RateLimit.RetryAfterIsExact` | services/edge-api/middleware/rate_limit.go:119-165 | after a denial and any calls of any keys before the time that the reply names, the key is denied until that time, with the wait that is left, and admitted from then on |
| `RateLimit.FullForOneWindow` | services/edge-api/middleware/rate_limit.go:120-130 | a call that a full table turns away is told to wait a window, and has room after it |
| `RateLimit.PrincipalKeyInjective` | services/edge-api/middleware/rate_limit.go:114-114 | principals have keys of their own as long as roles hold no colon |
| `RateLimit.RolesCollideExactly` | services/edge-api/middleware/rate_limit.go:114-114 | two roles make some two principals share a key exactly if one role ends in a colon and the other |
| `SessionStore.SessionRepository.Create` | services/identity-service/repository/postgres_session_repository.go:33-66 | session and first token, or neither |
| `SessionStore.SessionRepository.Rotate` | services/identity-service/repository/postgres_session_repository.go:69-164 | consumes the token for one successor, or revokes the family of a token used twice, or changes nothing |
| `SessionStore.SessionRepository.ValidatePrincipal` | services/identity-service/repository/postgres_session_repository.go:174-189 | live session of that active user |
| `SessionStore.SessionRepository.Logout` | services/identity-service/repository/postgres_session_repository.go:192-198 | revokes the session, once, and nothing else |
| `SessionStore.SessionRepository.CleanupExpired` | services/identity-service/repository/postgres_session_repository.go:202-208 | expired sessions go with their tokens |
| `Sessions.TokensFormChains` | services/identity-service/repository/postgres_session_repository.go:49-164 | the tokens of each session are one chain with one unconsumed token, its tail, and no token is rotated twice |
| `Sessions.RefreshOnChain` | services/identity-service/repository/postgres_session_repository.go:69-164 | a refresh succeeds exactly for the tail of a live session, and is a replay exactly for any other token of the chain |
| `Sessions.RevocationIsForGood` | services/identity-service/repository/postgres_session_repository.go:191-198 | nothing later validates a revoked session or extends its chain |
| `Sessions.ReplayEndsSession` | services/identity-service/repository/postgres_session_repository.go:113-122 | a replay by an active user ends the session for good |
| `Sessions.EndsForGood` | services/identity-service/repository/postgres_session_repository.go:113-198 | signing out ends that session, a revocation for a user all of that user's, a replay its family: nothing later validates one or issues a token for it; one that had ended keeps its time, and all others are untouched |
| `Sessions.RowsAreTold` | services/identity-service/repository/postgres_session_repository.go:33-208 | a session's row exists exactly if a known user logged in with it and no cleanup came after its expiry; it is as it was made, and revoked exactly from the first action that ended it |
| `Sessions.ValidExactly` | services/identity-service/repository/postgres_session_repository.go:174-189 | valid exactly if its user logged in with it, it is not expired or cleaned up, no action ever ended it, and the user is active |
| `Reconciler.Reconciler.RunPass` | services/catalog-service/internal/catalog/reconciler.go:109-186 | a pass keeps the original of every row that is not being deleted, removes as orphans only old generated objects that no row refers to, now or later, scans at most maxObjects and counts what it deleted; a completed one leaves no old generated object without a row from its cursor to the one it returns, one that fails before it lists keeps its cursor |
| `Reconciler.Reconciler.RunReconciliation` | services/catalog-service/internal/catalog/reconciler.go:188-202 | every pass goes on from the cursor of the one before it |
| `Reconciler.SweepLeavesNoOrphan` | services/catalog-service/internal/catalog/reconciler.go:109-202 | completed passes from an empty cursor back to one leave no object without a row of those that were generated and old at the start |
| `Reconciler.Reconciler.FinishDeletions` | services/catalog-service/internal/catalog/reconciler.go:112-138 | pending deletions one by one: the count is of those whose object is gone and recorded, a failed deletion is passed over and reported, a failed record ends the pass |
| `Reconciler.Reconciler.Scan` | services/catalog-service/internal/catalog/reconciler.go:139-158 | the listing loop, its bound and what it covers |
| `Reconciler.Reconciler.FindOrphans` | services/catalog-service/internal/catalog/reconciler.go:160-173 | candidates without a row |
| `Reconciler.Reconciler.DeleteOrphans` | services/catalog-service/internal/catalog/reconciler.go:174-180 | orphans are deleted in turn |
| `Reconciler.ListFrom` | services/catalog-service/repository/minio_object_store.go:97-125 | the next objects in order of their keys |
| `Reconciler.PlayKeeps` | services/catalog-service/internal/catalog/reconciler.go:109-186 | uploads, commits and deletions by others keep the originals that rows need |
| `Reconciler.SweepKeeps` | services/catalog-service/internal/catalog/reconciler.go:174-180 | so does removing an old object without a row |
| `Deliveries.Consumer.HandleDelivery` | services/catalog-service/processing/consumer.go:177-221 | how every delivery is settled and counted |
| `Deliveries.RetryPublisher.PublishRetry` | services/catalog-service/processing/consumer.go:71-86 | success exactly when sent, confirmed and routed with no return waiting, and whether one waits afterwards |
| `Deliveries.LostOrFound` | services/catalog-service/processing/consumer.go:71-86 | a confirmed and routed copy passes for lost exactly when an earlier copy on the channel was neither routed nor acknowledged in time, and none in between was acknowledged |
| `Deliveries.LateReturnMisleads` | services/catalog-service/processing/consumer.go:71-86 | two deliveries that end with the second message dead-lettered and its copy in the queue |
| `Deliveries.MessagesAreConserved` | services/catalog-service/processing/consumer.go:177-221 | of each message some copy with its content waits, is dead-lettered or was served, through crashes, lost settlements and redeliveries |
| `Deliveries.PlacesAreEarned` | services/catalog-service/processing/consumer.go:177-221 | over every trace a copy is dead-lettered exactly if a settled delivery of it met a malformed message, a final result, the retry limit, or a retry copy that failed outside of a shutdown; done exactly if one was served or handed on; served exactly if a handler was content |
| `Deliveries.ServedIsDone` | services/catalog-service/processing/consumer.go:187-188 | a message handled with success and acknowledged is done and served whatever comes after |
| `Deliveries.ReturnsAreLeft` | services/catalog-service/processing/consumer.go:71-86 | a return waits on a consumer's channel exactly if a publication on it was neither routed nor acknowledged in time and none has been acknowledged since, nor has it connected anew |
| `Deliveries.CopiesCountUp` | services/catalog-service/processing/consumer.go:195-262 | retry copies count up by one, to the limit at most, and keep the content |
| `Deliveries.RetriesAreUsed` | services/catalog-service/processing/consumer.go:195-247 | a message whose handling always fails is handed on until the limit, from the count it comes with, and its last copy dies |
| `Deliveries.HandlingIsBounded` | services/catalog-service/processing/consumer.go:195-247 | without redelivery a message is handled at most once for each count from the one it comes with to the limit; a count that is negative or no number is 5 |

## Left out

- HTTP, gRPC, SMTP, RabbitMQ connections, MinIO and TLS: I/O. Brokers, stores, handlers and generators are nondeterministic surroundings.
- SQL text, protobuf, JSON and base64: rows are values, and a cursor is an invertible value that may also be malformed.
- Correlation identifiers, tags of log lines and diagnostics: carried, never decided on.
- Configuration, loggers, routers, headers, cookies and command-line tools: wrappers with easy claims.
- The embedding similarity: an uninterpreted real function; so are the scores.
- Invalid UTF-8 in strings: they arrive through protobuf and JSON decoders, which admit none, so that the validity checks of evidence.go and output.go always pass in the model; U+FFFD is still refused.
- Sorting of topic, guard and mode lists: the model compares the sets that these sorted lists without repeats stand for.
- Liveness beyond termination and enabledness: whether a generator, a broker or a client ever answers is not stated.
- Service.Answer as one sequential method: it is modelled as the actions of a process in SingleFlight, because its claims are about interleavings; its lookups, stores and renderings are those of AnswerCache and Output.
- The order of the caches' map iterations in Go, in hub, limiter and reconciler loops: the loops choose any element.
- Decoding of status events in Edge other than validState, versions and lifecycle defaults: identifiers and timestamps are not modelled.
- The SSE write loop, heartbeats, tickers, reconnect back-off and real sleeping.
- Password reset, registration and review: only their revocation of a user's sessions is an action of Sessions.
- Durations and counters as 64-bit integers outside of RetryDelay.
- The in-memory Book that finalization returns to its caller, and its wake-up of the outbox.
- CatalogRuns.VersionsAreConsecutive: is about books that are not deleted, because finalization purges their rows and starts a new sequence with the one deleted event (CatalogRuns.DeletionConverges).
- RateLimit.BoundedRefinesUnbounded: is about runs in which no reading precedes an earlier pruning; RateLimit.DecidedAlike says for any readings what goes wrong otherwise.
- RateLimit.AdmissionsAreBounded: asks for clock readings that do not step back, since an interval of readings is not one of time otherwise.
- RateLimit.SteadyClockRefines: asks for clock readings that do not step back, as RateLimit.BoundedRefinesUnbounded does of those before a pruning.
- Reconciler.SweepLeavesNoOrphan: asks for completed passes, because the loop goes on behind what a pass listed although it failed after its listing.
- Leases.LeasesExclude: asks that no lease is over before it begins, which the policy's positive lease gives.
- Deliveries.HandlingIsBounded: asks that the broker repeats no delivery, because nothing in the application bounds how often it does.
- Deliveries.RetryPublisher.PublishRetry: does not model what the client library does with a second return while one waits in the channel of one.
- Evidence.FilterSearch: does not model a bound that is no finite number, which the request's own validation refuses before (services/answer-service/internal/domain).
- CatalogRepository.Repository.ClaimOutbox: does not model the tie-break by event identifier among rows of equal time, because identifiers have no order here.
- The error branch of publicationRoute: the outbox is only ever given the four types of event that have a route.
