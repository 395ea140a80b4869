# StewardMesh: a verified model of its stateful core

StewardMesh keeps an inventory of assets, prints labels for them, tracks budgets and answers remote
calls. This project models the parts of it where state, loops and arithmetic interact, and proves what
they keep over every run.

The pieces, and where they are:

- **Label batches** (`LabelRequests`, `LabelTables`, `LabelRuns`, `LabelGuarantees`, `LabelRetries`,
  `LabelOverlap`). A request for a batch of labels carries an idempotency key. Two critical sections
  work on three bounded first-in-first-out tables: 4096 remembered digests, 128 replay records, and
  rendered batches within 128 entries and 8 MiB. Each request is two atomic steps, and requests
  interleave freely.
- **Code 128-B** (`Code128`, `Code128Reader`). The encoder with its check symbol modulo 103, and a
  reader that shares nothing with it (ISO/IEC 15417).
- **PDF** (`PdfWriter`, `PdfReader`). The hand-written PDF writer, and a reader with its own list of
  the fixed texts, which starts at the end of the file and follows offsets and references (section 7.5
  of ISO 32000-1).
- **Identifier chains** (`Clock`, `Identifiers`, `ChainExport`, `IdentifierStore`, `IdentifierImport`,
  `IdentifierTransfer`, `IdentifierRuns`, `IdentifierEffects`, `IdentifierHistories`, `ChainMeaning`).
  Identifiers replace one another in linked histories; the exporter rebuilds these from a flat
  snapshot, the importer inserts them whole.
- **Assets and models** (`AtlasRecords`, `AtlasRules`, `AtlasModels`, `AtlasRuns`, `AtlasGuarantees`,
  `AtlasEffects`). Models are created, updated, retired and reactivated, assets registered singly or
  in bulk and updated, all under optimistic revisions, with lifecycle events and immutable snapshots
  of models, against the strict validators of the exchange format.
- **Permits, cache and limiter** (`RpcPermits`, `MemoryCache`, `CacheLaws`, `RateLimiter`,
  `LimiterLaws`). Each against a simple object: counting semaphores, a plain map with deadlines, an
  unbounded fixed-window counter.
- **Budgets and paging** (`OverBudget`, `BudgetReports`, `CursorPaging`).
- `Text`, `Sequences`, `Ordering` and `Runs` hold what the others share: strings, first-in-first-out
  windows, sorting by a string key, and how an invariant of single steps carries over to runs.

Code that updates fields in place is a class whose methods are proved against a pure step function;
runs are sequences of such steps, and the theorems are about all runs. What a step does is stated
twice: by the step function, and by laws in terms of what a caller sends and sees (`LabelRetries`,
`IdentifierEffects`, `AtlasEffects`, `BudgetReports`, `CacheLaws`, `LimiterLaws` and the two readers),
which do not mention how it is computed.

What the proofs assume of the surroundings is always a hypothesis that can be read off the lemma: the
clock reads between the years 1970 and 9999 (`ClockWorks`, `Works`) or does not go back (`Timed`),
generated names are 32 hexadecimal digits (`ScopeWorks`), and text operations obey a few laws
(`Lawful`), which `UnicodeLawful` and `WrittenLawful` prove of the operations as written, for any
tables of printable characters and of lower-case letters (`CaseTable`, which the ASCII table satisfies
by `AsciiCaseTable`). SHA-256 is symbolic: a digest is its preimage, and the label service works with
any digests without collisions, such as these (`WrittenTells`). Renderers are arbitrary functions of
template, records and test flag. The stores are the in-memory ones of the repository.

Findings, each stated as lemmas with the exact condition:

- Two label requests for one key that overlap in time can both succeed with different batches
  (`OverlappingRequestsCanDisagree`, a run from the start of the service). After a key is created, all
  replies for it agree, whatever follows, if and only if every request in flight for it with the same
  digest holds the same batch (`AgreeExactly`).
- A cross-reference entry is twenty bytes exactly while the offset is below 10^10 (`EntriesExact`).
- The asset service records the acting identity untrimmed and at any length, while the event validator
  accepts at most 128 runes: a lifecycle event can be imported exactly when its actor is that short
  (`ReachableImportable`; `LongActorRefused` is a run that reaches one that cannot).
- Retiring or reactivating a model compares the revision the caller names, not the row the service
  read, but dates the change by that row: the model's time moves back if and only if both the clock
  and the row read are earlier than the row replaced (`RetireBackExactly`, `ReactivateBackExactly`),
  and a run does so (`RetirementCanStepBack`). Updates of models never do (`EditForward`), and every
  reachable model is valid all the same (`ReachableModels`).
- A reachable identifier store exports exactly while no history is longer than ten thousand rows
  (`SoundExports`), and longer ones are reached (`LongHistoryNotExported`).
- The exporter's test for a row that two chains share never refuses anything: valid chains with
  different terminals are disjoint (`NotShared`).
- A call can be refused although its listener's own limit is not reached: in every reachable state,
  exactly when the calls half-way through admission fill all the places both listeners have left
  (`RefusedExactly`, `HalfWayCallsCanRefuse`).
- One window-long interval admits at most 2 * Maximum - 1 requests per key, one fewer than twice the
  maximum, and for every limit that many (`FewerThanTwice`, `BoundAttained`).
- Budget targets can collide. The result of an evaluation is determined if and only if groups over
  budget with equal targets have equal candidates (`EvaluationDetermined`); two cost lines whose
  evaluation has two results are given (`OrderCanDiffer`).
- The identifier store refuses a change dated before the row's last one; none of the service's own
  requests is ever refused for that, as an active row has not changed since it was read
  (`ReplaceExactly`, `DeactivateExactly`).

## Model

| member | source | states |
|---|---|---|
| `LabelRequests.NormalizeIds` | internal/atlascodes/labels.go:451-458 | the loop trims the identifiers, in order; it fails exactly when one is malformed or repeated |
| `LabelRequests.NormalizeInput` | internal/atlascodes/labels.go:439-461 | the normalized request, or a failure exactly for the inputs the service refuses |
| `LabelRequests.OutputsRead` | internal/atlascodes/labels.go:439-461 | an output is asked for by its own name, and by no name for SVG; every other name is unsupported |
| `Text.TrimExactly` | internal/atlascodes/labels.go:439-461 | trimming takes away exactly the white space at both ends, in the only way that leaves none there |
| `LabelRequests.DigestDeterminesSelection` | internal/atlascodes/labels.go:459 | two valid selections with one digest are the same selection: joining with separators loses nothing (SHA-256 taken as injective) |
| `LabelRequests.WrittenTells` | internal/atlascodes/labels.go:459 | so the digests as written tell valid selections apart, which is all the label runs use of them |
| `LabelTables.EvictKeepsLongestSuffix` | internal/atlascodes/labels.go:354-359 | the eviction loop keeps the longest suffix of the batch order that is within 128 entries and 8 MiB |
| `LabelTables.InsertedSurvives` | internal/atlascodes/labels.go:351-359 | the batch just inserted is still cached after the eviction loop, because an artifact is at most 4 MiB |
| `LabelTables.CommitConsistent` | internal/atlascodes/labels.go:320-361 | every commit keeps the invariant: each order list is its table's keys without repetition, replays are the last 128 of the remembered requests, digests agree across tables, the byte counter is exact, all bounds hold |
| `LabelTables.CommitKeepsOthers` | internal/atlascodes/labels.go:320-361 | what a commit leaves of any other key is what was there before |
| `LabelTables.CommitStores` | internal/atlascodes/labels.go:333-361 | a commit that stores has the batch cached as the newest, and for a new key the digest and the replay record remembered |
| `LabelTables.LabelCache.Lookup` | internal/atlascodes/labels.go:257-282 | the first critical section on the mutable tables: what it finds, with nothing changed; LabelRetries says what that gives a caller |
| `LabelTables.LabelCache.Commit` | internal/atlascodes/labels.go:320-361 | the second critical section on the mutable tables: its loops leave exactly the state of the specification, which stays consistent |
| `LabelTables.LabelCache.RememberDigest` | internal/atlascodes/labels.go:334-340 | appending to the remembered requests and deleting from the front gives the last 4096 |
| `LabelTables.LabelCache.RememberReplay` | internal/atlascodes/labels.go:341-350 | appending to the replay records and deleting from the front gives the last 128 |
| `LabelTables.LabelCache.Cache` | internal/atlascodes/labels.go:351-359 | inserting a batch and evicting from the front gives the specified suffix and its exact byte count |
| `LabelRuns.EveryRunConsistent` | internal/atlascodes/labels.go:216-362 | over every interleaving of the two critical sections, with requests aborting anywhere between, the table invariant holds after each step |
| `LabelRuns.ReachableConsistent` | internal/atlascodes/labels.go:216-362 | in particular after every run of the service from its start |
| `LabelRuns.ReachableWithin` | internal/atlascodes/labels.go:35-38 | so every run stays within 4096 remembered requests, 128 replay records, 128 batches, 8 MiB in all and 4 MiB each |
| `LabelRuns.ConflictChangesNothing` | internal/atlascodes/labels.go:257-262 | a request whose digest differs from the remembered one is refused with a conflict and changes no state, whichever critical section notices it |
| `LabelRuns.RepliesAgree` | internal/atlascodes/labels.go:257-361 | over every interleaving, once a key is created while every other request in flight for it with the same digest holds the same batch, every later successful reply for it is that batch in every field while it stays remembered |
| `LabelRetries.RetryAtOnce` | internal/atlascodes/labels.go:263-269 | from any consistent tables: once a request is served, any request of its key and selection is answered with the same batch, reported as not created, and changes nothing |
| `LabelRetries.CachedRetries` | internal/atlascodes/labels.go:263-269 | over every interleaving, every new request of the key and selection of a success is answered with its batch at once, as long as the key's batch is cached |
| `LabelRetries.RecentRetries` | internal/atlascodes/labels.go:271-284 | over every interleaving, once a key is created and the others in flight for it agree, and while fewer than 128 other keys were created since, a repeated request is not refused although the batch may be gone: it is answered with the batch, at once or when it finishes |
| `LabelRetries.SerialRetries` | internal/atlascodes/labels.go:271-318 | served one at a time, a repeated request succeeds with the batch as long as fewer than 128 other keys were created since, whatever was evicted |
| `LabelRetries.CreatedBatch` | internal/atlascodes/labels.go:298-318 | a reply that reports its key created carries the batch of that very request: every field, from the request, its records and the rendering |
| `LabelRetries.FreshExactly` | internal/atlascodes/labels.go:285-309 | a request under a new key goes on exactly when its assets fit, an SVG is of one record, and it renders to between one byte and 4 MiB |
| `LabelRetries.FreshCreated` | internal/atlascodes/labels.go:309-362 | and then its key is reported created |
| `LabelOverlap.AgreeExactly` | internal/atlascodes/labels.go:257-361 | the exact condition: after a key is created, its replies agree over every continuation that keeps it remembered if and only if every request in flight for it with the same digest holds the same batch |
| `LabelOverlap.Flood` | internal/atlascodes/labels.go:333-359 | 128 further requests for the same labels under unused keys, which render as the first did, push a batch out of the cache while its key stays remembered |
| `LabelOverlap.OverlappingRequestsCanDisagree` | internal/atlascodes/labels.go:257-361 | a run from the start of the service, for every request that renders: it starts twice at different instants, the first reply creates the key, and the second, with the key remembered throughout, succeeds with another batch |
| `LabelOverlap.OverlappingStartsDiffer` | internal/atlascodes/labels.go:310-318 | two requests for one key that start at different instants render to different batches with one digest and equal contents |
| `LabelGuarantees.CreatedAgainOnlyAfterFullWindow` | internal/atlascodes/labels.go:320-340 | between two replies that report one key as created, the key was forgotten and at least 4096 different other keys were created |
| `LabelGuarantees.ExpiredAtOnce` | internal/atlascodes/labels.go:271-277 | a request for a remembered key without replay record and batch is refused at once, as expired with its own digest and as a conflict with another, and changes nothing |
| `LabelGuarantees.ExpiredStaysExpired` | internal/atlascodes/labels.go:271-277 | such a key is never rendered again: over every interleaving, while it is remembered each reply for it is expired, a conflict, or one of the batches already on their way when it expired |
| `LabelGuarantees.NextSpent` | internal/atlascodes/labels.go:271-277 | one step of that: nothing but the batches already on their way is ever left of the key |
| `LabelGuarantees.CreateBatch` | internal/atlascodes/labels.go:216-362 | a whole request on the mutable tables, undisturbed, does what the two steps do one after the other; RetryAtOnce and SerialRetries say what a repetition of it gets |
| `LabelGuarantees.ServeIsStartThenFinish` | internal/atlascodes/labels.go:216-362 | serving is the run of the two steps with nothing between them |
| `LabelGuarantees.ServeShadowed` | internal/atlascodes/labels.go:333-359 | serial requests keep the bound: after a cached key at most 127 more requests are remembered than batches are cached |
| `LabelGuarantees.CachedAreRemembered` | internal/atlascodes/labels.go:333-359 | hence every key with a cached batch is still remembered |
| `LabelGuarantees.EverySerialRunOk` | internal/atlascodes/labels.go:333-359 | every serial run keeps that bound, and each remembered key has exactly one possible answer |
| `LabelGuarantees.ReachableSerialOk` | internal/atlascodes/labels.go:333-359 | in particular every serial run from the empty tables |
| `LabelGuarantees.SerialRepliesAgree` | internal/atlascodes/labels.go:257-361 | in a serial run any two successful replies for a key that stays remembered are equal in every field, though assets change and batches are evicted |
| `LabelGuarantees.ReachableRepliesAgree` | internal/atlascodes/labels.go:257-361 | the same from the empty tables, after any earlier requests |
| `Code128.SymbolRoundTrip` | internal/atlascodes/labels.go:766-768 | the reader's own table names each of the 106 symbols by its widths, so no two have the same, and each is eleven modules wide |
| `Code128.Encode` | internal/atlascodes/labels.go:770-799 | fails exactly on a payload that is empty, longer than 128 bytes or not printable ASCII; otherwise a reader that shares nothing with it gets the payload back from its modules |
| `Code128.ComputeCodes` | internal/atlascodes/labels.go:774-785 | the loop's codes are start B, the data values, the weighted sum modulo 103 and stop; PayloadOfCodes says the reader accepts their check symbol |
| `Code128.PayloadOfCodes` | internal/atlascodes/labels.go:774-785 | the reader, which adds the start value 104 and each data symbol times its position and divides by 103, accepts the check symbol exactly when it is the encoder's |
| `Code128.DrawAll` | internal/atlascodes/labels.go:786-797 | the nested loops draw every symbol's alternating runs between two quiet zones |
| `Code128.RoundTrip` | internal/atlascodes/labels.go:770-799 | the reader, with its own symbol table, start and stop symbols, quiet zones and check, gets the payload back from the modules, of which there are 11n + 55 (ISO/IEC 15417) |
| `Code128.DecodeDrawn` | internal/atlascodes/labels.go:775-786 | of all symbols drawn for a payload the reader accepts exactly the one with the right check symbol |
| `Code128.SubstitutionDetected` | internal/atlascodes/labels.go:776-785 | replacing one character changes the check value, except exactly at position 103 |
| `Code128.TranspositionDetected` | internal/atlascodes/labels.go:776-785 | exchanging two adjacent different characters changes the check value |
| `Code128.CorruptionRefused` | internal/atlascodes/labels.go:776-786 | so the reader refuses a symbol damaged in either way |
| `PdfWriter.BuildObjects` | internal/atlascodes/labels.go:909-921 | the object list: catalog, page tree, font, and for record i page 4 + 2i followed by its stream 5 + 2i; DocumentRoundTrip says what a reader finds in it |
| `PdfWriter.WritePageReferences` | internal/atlascodes/labels.go:938-944 | the loop's reference list is the join of the page references |
| `PdfWriter.WriteObjects` | internal/atlascodes/labels.go:923-928 | the recorded offset of each object is the length of all that was written before it |
| `PdfWriter.WriteTable` | internal/atlascodes/labels.go:930-933 | the entries of the recorded offsets after the free entry |
| `PdfWriter.Render` | internal/atlascodes/labels.go:904-936 | the whole file, as DocumentRoundTrip reads it |
| `PdfReader.EntryReads` | internal/atlascodes/labels.go:932 | an entry is twenty bytes and reads back as its offset exactly while the offset is below 10^10; beyond, it is no entry |
| `PdfReader.EntriesExact` | internal/atlascodes/labels.go:924-933 | every entry of a file reads back as the exact byte offset of its object if and only if the last object starts below 10^10 (section 7.5.4 of ISO 32000-1) |
| `PdfReader.StartXrefFound` | internal/atlascodes/labels.go:929-934 | the number before the end-of-file marker is where the cross-reference table starts |
| `PdfReader.XrefFound` | internal/atlascodes/labels.go:929-934 | past twenty bytes per entry stands the trailer, with the right size and root |
| `PdfReader.ObjectFound` | internal/atlascodes/labels.go:925-933 | at the offset its entry gives stands the object, under its own number |
| `PdfReader.WriterWords` | internal/atlascodes/labels.go:907-934 | every fixed text the writer puts down is the one the reader, with its own list of them, expects |
| `PdfReader.DocumentRoundTrip` | internal/atlascodes/labels.go:904-944 | a reader that follows startxref, table, Root, Pages, Kids, MediaBox, Contents and Length finds on every page, in order, the given page size and the page's own stream |
| `PdfReader.SmallDocumentRoundTrip` | internal/atlascodes/labels.go:306-308 | in particular for every file of at most 10^10 bytes; the service keeps artifacts to 4 MiB |
| `Clock.Max` | internal/portabletime/portabletime.go:23-29 | the later of two instants, normalized |
| `Identifiers.NormalizeCodeFixed` | internal/atlascodes/service.go:336-360 | a normalized code normalizes to itself |
| `Identifiers.NormalizeDisplayFixed` | internal/atlascodes/service.go:362-371 | so does a display text, given or taken from the code |
| `Identifiers.NormalizeSourceFixed` | internal/atlascodes/service.go:373-384 | so does a source |
| `Identifiers.UnicodeLawful` | internal/atlascodes/service.go:336-396 | trimming, lower case and the patterns as written obey the laws the other proofs use |
| `Identifiers.CheckItems` | internal/atlascodes/exchange.go:224-252 | one pass with a set of seen names decides that every row fits its place and no name repeats |
| `Identifiers.CheckChain` | internal/atlascodes/exchange.go:220-255 | decides chain validity |
| `ChainMeaning.RowExactly` | internal/atlascodes/exchange.go:257-290 | the row validator accepts exactly the rows whose names, texts, actors, instants, revision and status are as listed field by field |
| `ChainMeaning.ChainExactly` | internal/atlascodes/exchange.go:220-255 | the chain validator accepts exactly one to ten thousand such rows of one asset, each handing over to the next, without repetition, the last not replaced |
| `ChainMeaning.HistoryInOrder` | internal/atlascodes/exchange.go:220-255 | so in a valid chain all rows but the last are replaced, all agree on being primary, and each ends before any later one begins |
| `ChainExport.WalkIndex` | internal/atlascodes/exchange.go:54-72 | the exporter's walk back terminates and gives the rows to the first one, or nothing on a cycle or a missing row |
| `ChainExport.TraceExactly` | internal/atlascodes/exchange.go:54-72 | those rows are the walk by links, without repetition, from the row to one that supersedes nothing |
| `ChainExport.WalkReads` | internal/atlascodes/exchange.go:107-121 | the point-read walk gives the same rows; it fails with not found exactly when a row is missing within ten thousand, with a conflict exactly when it comes back to a row or is longer |
| `ChainExport.ExchangeIdentifierChains` | internal/atlascodes/exchange.go:34-93 | succeeds if and only if the snapshot is within the caller's maximum, the names are distinct and the rows are a disjoint union of valid chains; the result is those chains, strictly ascending by terminal; the error is too large exactly beyond the maximum, invalid exactly for a maximum below one or when the first row at fault can be walked back from but to no valid chain, and a conflict otherwise |
| `ChainExport.NotShared` | internal/atlascodes/exchange.go:79-84 | valid chains with different terminals share no row, so the exporter's test for a row visited twice never refuses |
| `ChainExport.PartitionUnique` | internal/atlascodes/exchange.go:49-88 | a store is a disjoint union of chains in at most one way |
| `ChainExport.ExportUnique` | internal/atlascodes/exchange.go:91 | so the export does not depend on the order of the snapshot |
| `ChainExport.ExchangeIdentifierChain` | internal/atlascodes/exchange.go:95-132 | succeeds with a chain if and only if the named row ends it and it is valid; not found exactly when the row is missing or replaced or the walk meets a missing row, a conflict exactly on a cycle or beyond ten thousand rows, invalid otherwise |
| `ChainExport.PointReadsAgree` | internal/atlascodes/exchange.go:95-132 | point reads give exactly the chains of the bulk export |
| `IdentifierStore.CreateKeeps` | internal/repository/memory_atlascodes.go:106-124 | creating a row keeps a store a disjoint union of histories without clashing active rows |
| `IdentifierStore.ReplaceKeeps` | internal/repository/memory_atlascodes.go:126-176 | so does replacing a row |
| `IdentifierStore.DeactivateKeeps` | internal/repository/memory_atlascodes.go:178-216 | so does deactivating one |
| `IdentifierStore.CreateOnce` | internal/repository/memory_atlascodes.go:106-124 | a create is applied only under a new name without a clash, and its repetition is recognized and changes nothing |
| `IdentifierStore.ReplaceOnce` | internal/repository/memory_atlascodes.go:126-176 | a replacement is applied only to the active row at the expected revision, touches no other row, and its repetition is recognized and changes nothing |
| `IdentifierStore.DeactivateOnce` | internal/repository/memory_atlascodes.go:178-216 | so is a deactivation; DeactivateApplied says when it goes through |
| `IdentifierStore.StaleRefused` | internal/repository/memory_atlascodes.go:155-157 | any other expected revision of an active row is refused |
| `IdentifierStore.RowsValid` | internal/atlascodes/exchange.go:257-290 | every row of such a store passes the exchange validator |
| `IdentifierImport.ImportKeeps` | internal/atlascodes/exchange.go:141-188 | so does importing a chain |
| `IdentifierImport.ImportAllOrNothing` | internal/atlascodes/exchange.go:141-188 | a created chain was wholly absent and is wholly there; in every other case nothing changed |
| `IdentifierImport.ImportIdempotent` | internal/atlascodes/exchange.go:168-177 | importing a chain again reports it present and changes nothing |
| `IdentifierImport.PartialRefused` | internal/atlascodes/exchange.go:201-218 | a chain present in part or with a difference is refused and nothing changes; a valid chain of a known asset with a conflict |
| `IdentifierImport.ReimportReproduces` | internal/atlascodes/exchange.go:141-188 | the chains of a store without clashing active rows, organization cleared, imported in any order into an empty store, give the same store |
| `IdentifierTransfer.TransferReproduces` | internal/atlascodes/exchange.go:141-188 | into the empty store of another organization they give the same rows under its name, whose chains, cleared, are the same again |
| `IdentifierImport.IdentifierTable.HasActiveConflict` | internal/repository/memory_atlascodes.go:263-276 | the scan finds a clashing active row exactly when there is one |
| `IdentifierImport.IdentifierTable.CreateIdentifier` | internal/repository/memory_atlascodes.go:106-124 | the mutable table changes as the row operation says |
| `IdentifierImport.IdentifierTable.ReplaceIdentifier` | internal/repository/memory_atlascodes.go:126-176 | the mutable table changes as the row operation says |
| `IdentifierImport.IdentifierTable.DeactivateIdentifier` | internal/repository/memory_atlascodes.go:178-216 | the mutable table changes as the row operation says, which DeactivateApplied and DeactivateExactly spell out |
| `IdentifierImport.IdentifierTable.ChainState` | internal/atlascodes/exchange.go:201-218 | exact means every row is there unchanged; partial means some name is there and not exact |
| `IdentifierImport.IdentifierTable.ImportIdentifierChain` | internal/repository/memory_atlascodes.go:218-253 | inserts all rows or none |
| `IdentifierImport.IdentifierTable.ImportFromPackage` | internal/atlascodes/exchange.go:141-188 | the importer on the mutable table, with the error of each refusal: invalid, missing asset or conflict |
| `IdentifierRuns.CreateValid` | internal/atlascodes/service.go:136-163 | a row a create request builds, once the store accepts it, passes the exchange validator |
| `IdentifierRuns.ReplaceValid` | internal/atlascodes/service.go:214-246 | so does a successor; it keeps the primary flag of the row that was read |
| `IdentifierRuns.EveryRunSound` | internal/atlascodes/service.go:136-300 | every state reachable by any interleaving of reads, creates, replaces, deactivations and imports is a disjoint union of replacement histories without clashing active rows |
| `IdentifierEffects.CreateApplied` | internal/repository/memory_atlascodes.go:106-124 | a create is applied exactly to a well-formed row under a new name that no active row opposes |
| `IdentifierEffects.ReplaceApplied` | internal/repository/memory_atlascodes.go:126-176 | a replacement is applied exactly to an active row of the asset at the expected revision, not later, by a well-formed new row that no other active row opposes |
| `IdentifierEffects.DeactivateApplied` | internal/repository/memory_atlascodes.go:178-216 | a deactivation is applied exactly to an active row of the asset at the expected revision, not later than the change, whether primary or not |
| `IdentifierEffects.CreateExactly` | internal/atlascodes/service.go:136-184 | a create request adds exactly the row it asks for, field by field, when it is acceptable, its name new and no active row has its code or is the asset's primary; otherwise it changes nothing |
| `IdentifierEffects.ReplaceExactly` | internal/atlascodes/service.go:186-263 | in a reachable state a replacement of a row that was read adds exactly the successor asked for and leaves the row replaced at revision 2, dated by the later of clock and row, exactly when it is acceptable and the row still active; otherwise nothing changes |
| `IdentifierEffects.DeactivateExactly` | internal/atlascodes/service.go:265-300 | in a reachable state a deactivation of a row that was read leaves it deactivated at revision 2, dated by the later of clock and row, exactly when it is acceptable and the row still active; otherwise nothing changes |
| `IdentifierEffects.ReadThenDeactivated` | internal/atlascodes/service.go:265-300 | after every run, any active row can be read and then deactivated |
| `IdentifierEffects.ReadThenReplaced` | internal/atlascodes/service.go:186-263 | after every run, any active row can be read and then replaced by an acceptable one |
| `IdentifierEffects.ImportExactly` | internal/atlascodes/exchange.go:141-188 | a chain is imported exactly when it is valid, its asset is known, all its names are new and no active row opposes it |
| `IdentifierEffects.ReachableUnique` | internal/repository/memory_atlascodes.go:263-276 | in every reachable store no two active rows have one code and no asset has two active primaries |
| `IdentifierRuns.SoundExports` | internal/atlascodes/exchange.go:220-255 | such a state exports if and only if none of its histories is longer than ten thousand rows |
| `IdentifierHistories.HistoryReached` | internal/atlascodes/service.go:214-246 | for every n there is a run of one create request and n reads and replacements that reaches a store that is one history of n + 1 rows |
| `IdentifierHistories.LongHistoryNotExported` | internal/atlascodes/exchange.go:220-255 | in particular a reachable store that cannot be exported |
| `IdentifierHistories.NumberedPlanWorks` | internal/atlascodes/service.go:136-163 | such requests exist under the text rules as written |
| `IdentifierRuns.ReachableRoundTrip` | internal/atlascodes/exchange.go:34-93 | exporting any reachable state and importing into an empty store loses nothing |
| `AtlasRecords.NormalizeSpecifications` | internal/atlas/service.go:787-802 | succeeds exactly when there are at most 25 entries, all fit and no two keys collide by trimming; the result is the trimmed entries |
| `AtlasRecords.NormalizeModelTexts` | internal/atlas/service.go:764-817 | the normalized texts of a model, or a failure exactly when they do not fit |
| `AtlasRecords.NormalExactly` | internal/atlas/exchange.go:208-220 | texts are normal, as the exchange validators demand, if and only if normalization accepts them and leaves them as they are |
| `AtlasRecords.CleanFieldsFixed` | internal/atlas/service.go:683-762 | normalizing an asset's fields twice is normalizing once |
| `AtlasRecords.NormalizedFixed` | internal/atlas/exchange.go:229-241 | a normalized input comes back unchanged from the validator's own normalization |
| `AtlasEffects.AcceptedExactly` | internal/atlas/service.go:683-762 | an asset request is acceptable exactly within the limits as written, field by field |
| `AtlasEffects.FieldsExactly` | internal/atlas/exchange.go:222-244 | an asset's fields pass the validator exactly when they are within those limits, trimmed, in lower case where that is asked, and the purchase at midnight |
| `AtlasRules.WrittenLawful` | internal/atlas/service.go:28-46 | the patterns and lists as written obey the laws the other proofs use |
| `AtlasRuns.CreateAssetsFromModel` | internal/atlas/service.go:443-525 | a bulk registration gives one row per item, in order, each built from its item under the active model and no two sharing a name, tag or serial number; it fails only when there are no such rows, or for a model that is missing or not active, or outside one to a hundred items |
| `AtlasRuns.BulkExactly` | internal/atlas/service.go:458-525 | the loop over the sets of names taken succeeds exactly when every item can be built and no two clash |
| `AtlasEffects.CreateExactly` | internal/atlas/service.go:366-441 | a registration adds exactly the asset the request asks for, every field from the request or its model, with one event, exactly when it is accepted, its name new and its model active; otherwise nothing changes |
| `AtlasEffects.ItemExactly` | internal/atlas/service.go:458-525 | an item of a bulk registration is built exactly when it names no other model and is within the limits |
| `AtlasEffects.BulkRegistersExactly` | internal/atlas/service.go:443-525 | an accepted bulk registration adds exactly one asset for each item, as the item asks, and changes no other; otherwise nothing changes |
| `AtlasGuarantees.CreateSound` | internal/atlas/service.go:366-441 | a registered asset and its first event pass the importer's checks |
| `AtlasGuarantees.ItemSound` | internal/atlas/service.go:462-525 | so does each asset of a bulk registration |
| `AtlasEffects.UpdateExactly` | internal/atlas/service.go:544-652 | an update writes what was asked for: when it is accepted and made on the row that is there, the row has the request's own name, tag, serial number, host name, notes, references, status and purchase day, the kind asked for or the model's, and the next revision, and exactly when the status changes one event from the old status to the new one is appended; no other row changes, and otherwise nothing changes |
| `AtlasGuarantees.KeptValid` | internal/atlas/service.go:1299-1304 | an update that keeps the model keeps the immutable snapshot and stays valid; UpdateExactly says what it writes |
| `AtlasGuarantees.ReassignedValid` | internal/atlas/service.go:1292-1298 | an update that assigns, changes or clears the model stays valid; UpdateExactly says what it writes |
| `AtlasGuarantees.HistoryGrows` | internal/atlas/service.go:643-652 | an update appends one linked event exactly when the status changes; all earlier events still fit |
| `AtlasEffects.CreateModelExactly` | internal/atlas/service.go:210-253 | creating a model adds exactly the model asked for, active and at revision 1, exactly when it is within the limits and its name new; otherwise nothing changes |
| `AtlasEffects.UpdateModelExactly` | internal/atlas/service.go:255-317 | updating one writes exactly the texts asked for at the next revision, exactly when it is made on the row that is there, not retired and within the limits; otherwise nothing changes |
| `AtlasEffects.RetireExactly` | internal/atlas/service.go:319-339 | a retirement retires the model exactly when it is at the named revision and not retired, and changes nothing else of it but revision and time |
| `AtlasEffects.ReactivateExactly` | internal/atlas/service.go:341-364 | a reactivation makes it active exactly when it is retired, was read as retired and is at the named revision |
| `AtlasModels.AddModelSteps` | internal/atlas/service.go:210-253 | creating a model adds a row that passes the exchange validator, or nothing |
| `AtlasModels.ReplaceModelSteps` | internal/atlas/service.go:255-317 | updating one gives the row that was read its next revision, valid and created when it was, or nothing |
| `AtlasModels.StatusSteps` | internal/atlas/service.go:319-364 | so do retiring and reactivating, also when the row read is older than the row that is there |
| `AtlasModels.EditForward` | internal/atlas/service.go:308 | an update of a model never moves its time back |
| `AtlasModels.RetireBackExactly` | internal/atlas/service.go:331 | a retirement moves the model's time back if and only if both the clock and the row that was read are earlier than the row it retires |
| `AtlasModels.ReactivateBackExactly` | internal/atlas/service.go:356 | and so does a reactivation |
| `AtlasGuarantees.RetirementCanStepBack` | internal/atlas/service.go:319-339 | a run in which it does: a model is created and read, another request updates it, and the first retires it under its new revision |
| `AtlasGuarantees.EveryRunGood` | internal/atlas/service.go:210-670 | every state reachable by any interleaving of reads, of model creations, updates, retirements and reactivations, and of asset registrations and updates is sound |
| `AtlasGuarantees.ReachableModels` | internal/atlas/exchange.go:196-220 | every reachable model passes the exchange validator of models |
| `AtlasGuarantees.ReachableImportable` | internal/atlas/exchange.go:143-163 | every reachable asset passes the asset validator and the model-revision check, and its context names the kind as overridden exactly when it is; every event passes the revision, time and status checks, and the event validator if and only if its actor is at most 128 runes; replaying the events gives the status |
| `AtlasGuarantees.LongActorRefused` | internal/atlas/service.go:1329-1334 | a run that registers an asset by an actor of more than 128 runes reaches an asset that passes the validator with an event that does not |
| `AtlasGuarantees.StepRevision` | internal/atlas/service.go:544-670 | a step leaves an asset alone or replaces the very row its request read by the next revision; while the model stays assigned its snapshot does not change |
| `AtlasGuarantees.RevisionCountsChanges` | internal/atlas/service.go:544-670 | the revision is one plus the number of changes since registration, and by UpdateExactly each of them wrote what its request asked: no update is lost |
| `RpcPermits.EveryRunConserves` | cmd/stewardmesh-grpc/main.go:411-501 | over every interleaving of admission, rollback, handler end and deadline, each limiter's occupancy is the number of calls holding its token and within its limit |
| `RpcPermits.ReachableBounds` | cmd/stewardmesh-grpc/main.go:411-429 | so at most 12 calls are in the process, 8 of them protected and 4 public |
| `RpcPermits.IdleIsEmpty` | cmd/stewardmesh-grpc/main.go:439-451 | once every call is over, all permits are free |
| `RpcPermits.RoomAdmits` | cmd/stewardmesh-grpc/main.go:453-469 | a new call that finds room in both limits is admitted and takes one token of each |
| `RpcPermits.ReleaseCompletes` | cmd/stewardmesh-grpc/main.go:439-451 | releasing an admitted call ends it and gives one token of each back, in every reachable state |
| `RpcPermits.NoRoomRollsBack` | cmd/stewardmesh-grpc/main.go:457-464 | a call its listener has no room for gives its process token back and is refused |
| `RpcPermits.ReleaseNeverBlocks` | cmd/stewardmesh-grpc/main.go:425 | a holder's token is there, so giving it back never waits |
| `RpcPermits.ReleasedExactlyOnce` | cmd/stewardmesh-grpc/main.go:439-451 | over every run, with any number of release attempts, a call that is over has taken and given back exactly one token of the process and one of its listener, a refused call has given back what it took, and no call ever gives back more than it took |
| `RpcPermits.RefusedExactly` | cmd/stewardmesh-grpc/main.go:453-464 | in every reachable state a new call is refused by the process limit if and only if the calls half-way through admission are as many as the places both listeners still have |
| `RpcPermits.TokensSplit` | cmd/stewardmesh-grpc/main.go:411-466 | every process token belongs to an admitted call of one listener or to a call half-way |
| `RpcPermits.RefusalMeansFull` | cmd/stewardmesh-grpc/main.go:453-464 | so a refusal while no other call is half-way means the listener's own limit is full |
| `RpcPermits.HalfWayCallsCanRefuse` | cmd/stewardmesh-grpc/main.go:453-464 | and with twelve public calls half-way a protected call is refused with its own limit untouched |
| `RpcPermits.Admit` | cmd/stewardmesh-grpc/main.go:453-466 | the admission loop takes one token of every limiter, or rolls back and takes none; it succeeds exactly when all have room |
| `RpcPermits.ReleaseAll` | cmd/stewardmesh-grpc/main.go:460-462 | the rollback loop returns exactly the tokens taken |
| `RpcPermits.Semaphore.Acquire` | cmd/stewardmesh-grpc/main.go:419-429 | takes a token exactly when there is room |
| `RpcPermits.Permit.Release` | cmd/stewardmesh-grpc/main.go:439-451 | the first call returns one token of each limiter, later calls none |
| `Text.ParseFormat` | internal/cache/memory.go:160-165 | a counter written is read back |
| `MemoryCache.ReserveAgrees` | internal/cache/memory.go:203-212 | the store makes room for a key if and only if the key is live or fewer than the maximum are live |
| `MemoryCache.StepRefines` | internal/cache/memory.go:63-171 | one operation, with its two clock readings, replies as the plain map does and stays in agreement with it |
| `MemoryCache.EmptyRunsAgree` | internal/cache/memory.go:63-191 | with a non-decreasing clock no run can tell the store from a plain map of values with deadlines: expired leftovers are unobservable and live entries are never evicted |
| `CacheLaws.SetIsRead` | internal/cache/memory.go:63-111 | over every run of the store, a value that was set is read exactly before its deadline, the setting's time plus its time to live, until something else writes its key |
| `CacheLaws.DeletedIsGone` | internal/cache/memory.go:113-128 | a deleted key is not found until it is written again |
| `CacheLaws.SetExactly` | internal/cache/memory.go:87-111 | a value is set exactly when the store is open, key and time to live are within the limits, and the key is live or fewer than the maximum are |
| `CacheLaws.ClosedStays` | internal/cache/memory.go:182-191 | once closed, the store refuses every further operation |
| `MemoryCache.WindowOpens` | internal/cache/memory.go:147-170 | in the bounded store the first increment of a key that is not live replies one and sets the deadline, when there is room |
| `MemoryCache.WindowCounts` | internal/cache/memory.go:158-166 | while only increments write the key inside its window, their replies count on and at the end the entry holds the count with the deadline it had |
| `MemoryCache.IncrementsCount` | internal/cache/memory.go:130-171 | over a run of the bounded store from empty: after any prefix an increment opens a window with a deadline, the i-th further increment inside it replies i + 1, and the entry's deadline is still the first one |
| `MemoryCache.MemoryStore.RemoveExpired` | internal/cache/memory.go:214-221 | the deletion loop leaves exactly the live entries |
| `MemoryCache.MemoryStore.ReserveRoom` | internal/cache/memory.go:203-212 | sweeps only when the key is new, and reports whether there is room |
| `MemoryCache.MemoryStore.GetValue` | internal/cache/memory.go:63-85 | the mutable store changes and replies as specified |
| `MemoryCache.MemoryStore.SetValue` | internal/cache/memory.go:87-111 | the mutable store changes and replies as specified |
| `MemoryCache.MemoryStore.DeleteValue` | internal/cache/memory.go:113-128 | the mutable store changes and replies as specified |
| `MemoryCache.MemoryStore.IncrementValue` | internal/cache/memory.go:130-171 | the mutable store changes and replies as specified |
| `MemoryCache.MemoryStore.CloseStore` | internal/cache/memory.go:182-191 | the mutable store changes and replies as specified |
| `RateLimiter.RequestLimiter.Sweep` | internal/atlascodes/rate_limiter.go:85-89 | the sweep leaves exactly the slots whose window has not ended |
| `RateLimiter.RequestLimiter.Allow` | internal/atlascodes/rate_limiter.go:60-95 | the mutable limiter changes and replies as specified |
| `RateLimiter.StepRefines` | internal/atlascodes/rate_limiter.go:60-95 | one request is answered as the unbounded counter answers it; the sweep is unobservable |
| `RateLimiter.EmptyRunsAgree` | internal/atlascodes/rate_limiter.go:60-95 | with a clock that does not go back, no run can tell the limiter from an unbounded fixed-window counter that refuses a key without a live window exactly while all places have live windows |
| `LimiterLaws.WindowAllows` | internal/atlascodes/rate_limiter.go:60-95 | over every run of the limiter, a key without a running window gets one while a place is free, and of its requests in the window exactly the first are allowed, up to the maximum, whatever other keys ask |
| `LimiterLaws.CapacityExactly` | internal/atlascodes/rate_limiter.go:60-95 | a key without a running window is turned away exactly while every place has one |
| `RateLimiter.FewerThanTwice` | internal/atlascodes/rate_limiter.go:72-83 | any half-open interval of one window admits at most 2 * Maximum - 1 requests per key |
| `RateLimiter.BoundAttained` | internal/atlascodes/rate_limiter.go:72-83 | for every limit and any number of places that bound is attained: one request when the window opens, Maximum - 1 at its last instant, and Maximum when the next one opens |
| `OverBudget.SumGroups` | internal/application/signals_evaluator.go:56-75 | the loops give, per key, the 64-bit wrapped sums of the matching allocations and of the matching recognized costs |
| `OverBudget.Emit` | internal/application/signals_evaluator.go:76-87 | the output holds one candidate for each group whose recognized sum exceeds the allocation, and no other, in ascending order of target; equal targets may come in any order |
| `OverBudget.EvaluateOverBudget` | internal/application/signals_evaluator.go:55-88 | an output in that sense of the groups that hold the wrapped sums of the lines |
| `OverBudget.OverExactly` | internal/application/signals_evaluator.go:77-80 | a key is over budget exactly when its wrapped recognized sum exceeds its wrapped allocation, listed or not |
| `OverBudget.KeysAreGroups` | internal/application/signals_evaluator.go:62 | with fields free of NUL, keys correspond to period, scenario and currency, and splitting recovers them |
| `OverBudget.EmittedExactly` | internal/application/signals_evaluator.go:55-88 | with fields free of NUL and sums that fit in 64 bits, a period, scenario and currency is over budget if and only if its recognized costs exceed its allocations, and then every output has its candidate with these sums |
| `OverBudget.OnlyGroupsEmitted` | internal/application/signals_evaluator.go:55-88 | every candidate of an output is that of some line's group |
| `BudgetReports.OverIsReported` | internal/application/signals_evaluator.go:55-88 | in terms of the lines' own fields: a period, scenario and currency the rule is for is reported, with its recognized before its allocated sum, when its actual, billed, paid and committed costs exceed its allocations |
| `BudgetReports.ReportedIsOver` | internal/application/signals_evaluator.go:55-88 | and every candidate reports such a group of some line |
| `BudgetReports.TargetShape` | internal/application/signals_evaluator.go:291-303 | a target is at most 128 plain characters, with no hyphen at the ends |
| `BudgetReports.TargetPlain` | internal/application/signals_evaluator.go:291-303 | plain fields stand in the target as they are, after the word budget, joined by hyphens |
| `OverBudget.OrderIndependent` | internal/application/signals_evaluator.go:55-75 | the groups do not depend on the order of budgets and costs |
| `OverBudget.ExactlyOneOutput` | internal/application/signals_evaluator.go:76-87 | there is always an output, and exactly one if and only if groups over budget with equal targets have equal candidates |
| `OverBudget.EvaluationDetermined` | internal/application/signals_evaluator.go:55-88 | the evaluations of one collection of lines, in any order of lines and map, all agree if and only if groups over budget with equal targets have equal candidates |
| `OverBudget.OrderCanDiffer` | internal/application/signals_evaluator.go:291-309 | two cost lines whose targets collide, and two different results of evaluating them |
| `CursorPaging.BuildPage` | internal/bridge/mcp.go:454-466 | the scan with its flag and early stop gives the page after the cursor |
| `CursorPaging.PageAt` | internal/bridge/mcp.go:535-542 | a page at any place holds the next items and a cursor exactly when more follow |
| `CursorPaging.FollowVisitsAll` | internal/bridge/mcp.go:454-466 | following the cursors visits every fetched item once, in order, and stops |
| `CursorPaging.CursorsAccepted` | internal/bridge/mcp.go:522-533 | no cursor on the way is refused |
| `CursorPaging.BoundedExactly` | internal/bridge/mcp.go:522-533 | a page is given exactly for a cursor of at most 128 bytes and one to 25 results, ten when none are asked for |

## Left out

- Label geometry, SVG and ZPL text, the drawing programs inside PDF pages and the QR matrix: the
  renderers are parameters; only the PDF file structure around the streams is modelled. The size of a
  page is a text given to the writer; how millimetres become points is not modelled.
- Label template validation, resolving identifiers and assets for a batch, and per-asset
  authorization: they happen before the first critical section; a request arrives with the outcome.
- Context cancellation: a label request may be aborted between its two steps, elsewhere a cancelled
  call is one that does not happen.
- Invalid UTF-8: strings are sequences of Unicode characters, so the validity tests are always true.
- The instant at which a new label batch is created is never the zero instant, which the source uses
  as a marker for "not set".
- Import operation tokens, audit events and the resource write gate: they do not touch the modelled
  state; a failing audit after a write is not modelled.
- IdentifierImport.IdentifierTable.ImportFromPackage: the read after a failing write, which reports a chain
  that is there after all as committed, is not modelled, since the in-memory write fails only when the chain
  is not there.
- IdentifierRuns.EveryRunSound: the reply to a create request that is answered with an existing row is
  not modelled; no row changes in that case.
- Several organizations in one store: each table is the part of one organization.
- AtlasGuarantees.EveryRunGood: template fields, attributes, components, costs, dates other than the
  purchase and the lineage of models and assets, which the exchange validators do not look at, are one
  opaque field each with its own normalization.
- AtlasGuarantees.ReachableImportable: conflicts of tags, serial numbers and model identities with rows
  already in the store only refuse requests and are not modelled, so the theorems hold of more runs.
- OverBudget.EvaluateOverBudget: the fixed target type and title of a candidate are left out.
- RpcPermits.EveryRunConserves: the order in which a blocked release would resume is not modelled,
  since no release blocks.
- The other signal conditions, forecasts, OAuth, the Valkey store, HTTP and MCP plumbing, generated
  stubs, construction of the application and demo data.
