# Verification of the PEKA connector's stateful services

This project models the parts of the connector whose correctness spans several functions or a whole
run, and proves what they keep. Code that changes things step by step is a class or a loop here, and
every such method is proved against a specification on values; the theorems are about those
specifications, over all inputs, runs or reachable states.

| files | part of the connector |
|---|---|
| `DocumentState`, `DocumentServices` | documents table, managed directory and knowledge store; `ManagedDocumentService` and `LocalKnowledgeService` |
| `DocumentInvariants`, `DocumentHistory`, `DocumentContents`, `Reconciliation`, `IndexQueue`, `QueueOrder` | what runs keep and versions tell, what the store holds, what scans achieve, what the worker achieves and in which order |
| `Chunker`, `KnowledgeSearch` | the overlapping chunker and the hybrid ranker |
| `InventoryModel`, `InventoryService`, `InventoryTheorems` | identity resolution, CMDB ingestion, human decisions |
| `StreamSelection`, `SelectionService`, `SelectionMigration` | one selected source per stream; the migration that establishes it |
| `HealthAssessment` | severity from reachability, metrics and log events |
| `CmdbImport` | duplicate detection, dataset versions, worksheet cells |
| `LogQl`, `RateLimiter` | the stream-selector printer and the sliding-window limiter |

`dafny verify dfyconfig.toml` checks everything.

## Findings

Where a promise does not hold of the code, the code is kept and the exact condition, or a family of
counterexamples, is proved.

- Head-of-line blocking. `process_pending` loads the least recently updated documents, and a failing
  turn writes the values a failed row already has, so `updated_at` does not move: the document is given
  up, and keeps its place. Between scans, a document the worker could finish is reached if and only if
  fewer given-up documents are older than a round loads (`ReachedIff`); among documents of exactly the
  same age the query decides either way (`TiesCanLetThrough`, `TiesCanStarve`). A scan stamps the rows it
  commits one after the other, so it only puts them into the order of the walk: after a scan that finds
  no given-up document's file settling, a waiting document with a file is reached if and only if fewer
  given-up documents than a round loads are walked before it (`ReachedAfterScanIff`). While the directory
  stays as it is and is walked in the same order, no number of scans and rounds helps (`ScansDoNotHelp`):
  corrupt files of supported types, as many as a round loads, keep a good file behind them out of the
  index (`CorruptFilesStarve`).
- Stale index. The worker reads the file when it indexes, and files its chunks under the hash taken
  earlier. A round keeps the store faithful, whatever the store answers, if and only if every
  document it indexes still reads as what was hashed (`RoundFaithfulIff`). From the empty table on, five events lead to a document whose
  file, row and hash agree while its stored text is another (`RestoredFileIsServedWrong`); no later scan
  notices (`OverwrittenWhileQueuedStaysWrong`).
- Uncomposed paths. `reconcile` looks a row up under the walked path and writes it under the NFC path.
  A supported file with an uncomposed name is discovered anew by every scan, so the fixpoint holds if and
  only if there is none (`FixpointIffPlain`); such a file can also lift the deletion mark of its composed
  sibling (`DeletedDocumentComesBack`), and "live documents are the walked files" holds if and only if
  none does (`LivePathsAreTheWalkIff`).
- Rival integrations. When integrations share a slot, `bootstrap_stream_activations` gives it to the one
  its unordered query lists first. A stream is served afterwards if and only if it was before or the
  first to offer some new slot of it is enabled (`BootstrapFillsExactly`). Hence some order serves it if
  and only if an enabled integration offers a new slot of it, and every order does if and only if some
  new slot of it is offered by enabled integrations alone (`OrdersServeIff`); `RivalsDependOnOrder` is an
  input where the order decides.
- Scans may give an asset a second serial number (`ScanBringsSecondSerial`); exactly when is
  `ScanKeepsOneValueIff`.
- A further log event can lower the severity, although it can never hide an active issue, which is read
  off the summary (`ActiveWeightNeverFalls`). It does if and only if it takes over one of just two likely
  events with a category that is not likely, with no active event, no breached metric and the target not
  unreachable (`SeverityFallsIff`); `TakeoverCanLower` is such an input.
- A search query with a single term finds nothing (`OneTermFindsNothing`). A closed interval as long as
  the limiter's window can hold twice the limit, and no more (`ClosedWindowBound`, `TwiceTheLimitPasses`).
- `docs/inventory.md` lists the matching priorities without the CMDB id and the alias; the code has both,
  and the model follows the code.

## Model

| member | source | states |
|---|---|---|
| `DocumentInvariants.EveryRunAgrees` | README.md:119-122 | after any run of uploads, file changes, scans, deletions, retries and index rounds from the empty table, with the store failing at will: an indexed document is not deleted, its indexed hash is its content hash and the store holds exactly its points; a deleted one has none; a live pending or failed one has no indexed hash; no point is without a document |
| `DocumentInvariants.RunKeepsInv` | backend/app/application/services/knowledge.py:444-529 | the invariant behind it, from any state that has it, over every run |
| `DocumentInvariants.StepKeepsInv` | backend/app/application/services/documents.py:576-985 | each single service call keeps it |
| `DocumentInvariants.ProcessKeepsInv` | backend/app/application/services/knowledge.py:493-529 | an index round keeps it whichever documents fail, and wherever the round stops |
| `DocumentInvariants.TurnKeepsRow` | backend/app/application/services/knowledge.py:507-528 | one document's turn keeps its row's promises and touches no other document's points, whether the store applied a failed request or not |
| `DocumentInvariants.UpsertKeepsRow` | backend/app/application/services/documents.py:576-673 | an upload or accepted scan never leaves a row indexed under an old hash |
| `DocumentInvariants.ReconcileKeepsTable` | backend/app/application/services/documents.py:733-842 | a whole scan keeps every row's promises with the store untouched |
| `DocumentHistory.UploadedDocument` | backend/app/application/services/documents.py:576-673 | after an accepted upload the document is live and hashed from the file; unless it was so before, it is a new version, queued, with nothing indexed; no other document or file changes |
| `DocumentHistory.DeletedDocument` | backend/app/application/services/documents.py:925-941 | after an accepted deletion the file is gone and the document, a version later, waits for its points to be deleted; a second deletion changes nothing |
| `DocumentHistory.VersionTellsContents` | backend/app/application/services/documents.py:617-650 | over every run versions never fall, and the same version means the same hash and deletion mark |
| `DocumentContents.RunKeepsFaithful` | backend/app/application/services/knowledge.py:444-473 | over every run in which no file comes to read otherwise between hashing and indexing, an indexed document's points are the chunks of the bytes it was hashed from |
| `DocumentContents.RoundFaithfulIff` | backend/app/application/services/knowledge.py:444-529 | a round keeps the store faithful, whichever requests fail and wherever it stops, iff every document it indexes still yields the chunks of the hashed bytes |
| `DocumentContents.OverwrittenWhileQueuedStaysWrong` | backend/app/application/services/knowledge.py:451-466 | a file overwritten while queued and then put back stays indexed under its hash over a later scan, and is faithful iff the indexed bytes read as the hashed ones |
| `DocumentContents.RestoredFileIsServedWrong` | backend/app/application/services/knowledge.py:451-466 | a run of five events from the empty table after which file, row and hash say one text and the store holds another |
| `DocumentContents.ScanThenIndexConverges` | README.md:119-122 | after one stable scan of a quiet directory without supported files under uncomposed paths, and enough smooth rounds that load more documents than are stuck, the store holds exactly the chunks of its current bytes for every path whose file is supported and parses, and nothing for removed files and deleted documents; other files may be anything |
| `Reconciliation.ReconcileCountsAreExact` | backend/app/application/services/documents.py:733-842 | where no accepted file lies under an uncomposed path: every walked file falls in exactly one of six classes, judged on the table before the scan; the classes add up to the walk; `removed` is the number of live rows without a file |
| `Reconciliation.ScanIsRowByRow` | backend/app/application/services/documents.py:741-821 | where no accepted file lies under an uncomposed path: the loop treats every file as if alone, whatever the order of the walk |
| `Reconciliation.UncomposedRowsAreTheirOwn` | backend/app/application/services/documents.py:74-84 | the row of an uncomposed path is written by its own turn only |
| `Reconciliation.ReconcileLivePaths` | backend/app/application/services/documents.py:733-842 | after a scan a path is live iff it was walked and was not deleted before, or an accepted uncomposed sibling revived it |
| `Reconciliation.LivePathsAreTheWalkIff` | backend/app/application/services/documents.py:74-84 | live documents are the walked files less the deleted ones iff no deleted, walked path is revived |
| `Reconciliation.DeletedDocumentComesBack` | backend/app/application/services/documents.py:817-821 | two files and two rows for which a scan revives a deleted document |
| `Reconciliation.StableReconcileSettles` | backend/app/application/services/documents.py:844-856 | on a quiet directory without supported, undeleted files under uncomposed paths, the second pass starting a window after the first ends: nothing stays delayed, every supported undeleted file's row has the hash of its bytes, every row without a file is deleted |
| `Reconciliation.StableReconcileIsFixpoint` | backend/app/application/services/documents.py:844-856 | on such a directory a further scan discovers, changes and removes nothing and leaves every document as it was |
| `Reconciliation.FixpointIffPlain` | backend/app/application/services/documents.py:817-856 | the fixpoint holds iff no supported, undeleted file lies under an uncomposed path |
| `Reconciliation.RestartBeginsWindow` | backend/app/application/services/documents.py:753-816 | a pass that finds a file new, changed or changing delays it, begins its window and leaves what is known of its contents |
| `Reconciliation.ChangedFileWaits` | backend/app/application/services/documents.py:781-798 | every pass within a window of that one delays the file again, any number of them, and its document's hash, status and index columns stay what they were |
| `Reconciliation.AcceptedDocument` | backend/app/application/services/documents.py:817-821 | an accepted file's document has the hash of its bytes, counts as unchanged, changed or discovered by the hash it had, and only a change of hash makes a queued new version |
| `Reconciliation.UncomposedNeverSettles` | backend/app/application/services/documents.py:741-821 | such a file is judged as newly discovered by every scan after the window |
| `IndexQueue.SmoothRound` | backend/app/application/services/knowledge.py:493-529 | with the store answering, every document of the batch is indexed with the chunks of its file, deleted, or failed for want of a readable file, each as if alone; all others are left alone |
| `IndexQueue.SmoothRoundDrains` | backend/app/application/services/knowledge.py:493-529 | exactly the processable documents of the batch leave the queue |
| `IndexQueue.ProcessedAreProcessable` | backend/app/application/services/knowledge.py:506-529 | the number a smooth round returns is that of the processable documents of its batch |
| `IndexQueue.UnregisteredRound` | backend/app/application/services/knowledge.py:513-517 | without a registration a round leaves its first document pending with the registration error, and no other row and no point changes |
| `IndexQueue.FaultyTurn` | backend/app/application/services/knowledge.py:444-528 | what every store failure leaves of a document and its points: failed and untouched, emptied or replaced, or served where the failing request is not made |
| `IndexQueue.RoundRate` | backend/app/application/services/knowledge.py:496-505 | a round takes off everything processable, or at least the limit less the number of stuck documents |
| `IndexQueue.RoundsDrainTheQueue` | backend/app/application/services/knowledge.py:493-529 | while fewer documents are stuck than a round loads, enough rounds leave exactly the stuck ones queued; with none stuck the queue is empty |
| `QueueOrder.ReachedIff` | backend/app/application/services/knowledge.py:496-528 | over rounds on a growing clock, a document the worker could finish leaves the queue iff fewer given-up documents are older than a round loads, where none is of exactly its age |
| `QueueOrder.FewBlockersLetThrough` | backend/app/application/services/knowledge.py:496-528 | ties counted against it: fewer given-up documents at or before its time than a round loads let it through within as many rounds as others are ahead of it, plus one |
| `QueueOrder.ManyBlockersStarve` | backend/app/application/services/knowledge.py:496-528 | ties counted for it: as many strictly older ones keep it waiting with its row as it is over any number of rounds |
| `QueueOrder.TiesCanLetThrough` | backend/app/application/services/knowledge.py:500-503 | where the strictly older ones do not fill a batch, some choice of the query reaches it |
| `QueueOrder.TiesCanStarve` | backend/app/application/services/knowledge.py:500-503 | where those at least as old do, some choice leaves it out for any number of rounds |
| `QueueOrder.ScanMovesIff` | backend/app/application/services/documents.py:781-821 | a scan leaves a given-up document's place alone exactly while its file is still settling, and otherwise moves it to the instant its row is committed |
| `QueueOrder.BlockersAfterScan` | backend/app/application/services/documents.py:741-821 | after a scan that finds nothing settling, the given-up documents before a waiting one with a file are those found unchanged and walked before it, and none if its row was not stamped anew |
| `QueueOrder.ReachedAfterScanIff` | backend/app/application/services/documents.py:741-821 | in the rounds that follow it is reached iff those are fewer than a round loads |
| `QueueOrder.ScansDoNotHelp` | backend/app/application/services/documents.py:618-623 | scan after scan of an unchanged directory in the same order, with rounds between, leaves a starving document starving |
| `QueueOrder.CorruptFilesStarve` | backend/app/application/services/knowledge.py:518-528 | a table, directory and walk in which corrupt files starve a good one |
| `QueueOrder.RetryMovesBehind` | backend/app/application/services/documents.py:969-978 | retrying a given-up document queues it behind everything updated before, no longer given up |
| `IndexQueue.StatsMatchStore` | backend/app/application/services/knowledge.py:632-687 | the chunk count reported never exceeds the store's, and equals it once the queue is empty |
| `DocumentServices.ManagedDocumentService.UpsertStable` | backend/app/application/services/documents.py:576-673 | the composed path's row becomes the specified one; nothing else changes |
| `DocumentServices.ManagedDocumentService.RequestDelete` | backend/app/application/services/documents.py:925-967 | the row is marked once; the file goes if asked for and not marked before |
| `DocumentServices.ManagedDocumentService.Upload` | backend/app/application/services/documents.py:503-574 | accepted uploads write the file and the row; refused ones change nothing |
| `DocumentServices.ManagedDocumentService.Delete` | backend/app/application/services/documents.py:881-923 | accepted deletions remove the file and mark the row; refused ones change nothing; the store is left to the worker |
| `DocumentServices.ManagedDocumentService.Retry` | backend/app/application/services/documents.py:969-985 | only a failed document returns to the queue |
| `DocumentServices.ManagedDocumentService.ScanFile` | backend/app/application/services/documents.py:741-821 | one file's branchings compute the specified row and verdict |
| `DocumentServices.ManagedDocumentService.ScanFiles` | backend/app/application/services/documents.py:738-821 | the loop over the walk, table and counts |
| `DocumentServices.ManagedDocumentService.RemoveMissing` | backend/app/application/services/documents.py:822-835 | exactly the live rows that were not walked are marked deleted, and counted; no file is touched |
| `DocumentServices.ManagedDocumentService.Reconcile` | backend/app/application/services/documents.py:733-842 | a whole pass, table and counts |
| `DocumentServices.ManagedDocumentService.ReconcileWithStability` | backend/app/application/services/documents.py:844-856 | a second pass iff something was delayed, and how the two counts combine |
| `DocumentServices.LocalKnowledgeService.IndexDocument` | backend/app/application/services/knowledge.py:444-473 | row and store for every way the two store requests can end |
| `DocumentServices.LocalKnowledgeService.DeleteDocument` | backend/app/application/services/knowledge.py:475-491 | the same for deletion |
| `DocumentServices.LocalKnowledgeService.ProcessOne` | backend/app/application/services/knowledge.py:507-528 | one turn with its exception handlers |
| `DocumentServices.LocalKnowledgeService.ProcessPending` | backend/app/application/services/knowledge.py:493-529 | the loop, its early stop and the number it returns |
| `Chunking.WindowsAreGapless` | backend/app/application/services/knowledge.py:695-709 | windows start at 0, end at the end, and each opens exactly one overlap before its predecessor closes |
| `Chunking.NextStart` | backend/app/application/services/knowledge.py:709 | progress, and the `start + 1` operand never wins for any positive maximum |
| `Chunking.WindowEnd` | backend/app/application/services/knowledge.py:699-703 | a window is non-empty, at most the maximum, and more than half of it unless the text ends; short of the end it closes at the last blank beyond its half, or, with none there, at the maximum |
| `Chunking.EveryWindowClosesWell` | backend/app/application/services/knowledge.py:697-709 | the same of every window of a section |
| `Chunking.PiecesAreWindows` | backend/app/application/services/knowledge.py:704-706 | the chunks are the stripped windows that are not blank, each once and in order |
| `Chunking.LimitsOf` | backend/app/application/services/knowledge.py:693-702 | the overlap is a tenth of the maximum, rounded down, and 400 from a maximum of 4000 on; at most half of the maximum for every positive one |
| `Chunking.WindowsReassemble` | backend/app/application/services/knowledge.py:698-709 | dropping the overlap from every later window and concatenating gives back the sanitised text |
| `Chunking.NothingVisibleIsLost` | backend/app/application/services/knowledge.py:704-706 | every non-whitespace character is in some emitted chunk, at its place |
| `Chunking.ChunksAreBounded` | backend/app/application/services/knowledge.py:698-709 | every chunk is a stripped, non-empty piece of the text of at most `maximum` characters |
| `Chunking.Chunks` | backend/app/application/services/knowledge.py:689-709 | the nested loops emit exactly the specified chunks in order |
| `Chunking.SectionChunks` | backend/app/application/services/knowledge.py:697-709 | the inner loop, with its break, emits exactly the chunks of the section's windows |
| `KnowledgeSearch.Search` | backend/app/application/services/knowledge.py:572-600 | the loop and sort return the first `min(top_k, 20)` of the ranked evidence |
| `KnowledgeSearch.AcceptedIff` | backend/app/application/services/knowledge.py:572-598 | a hit is accepted iff it is a candidate's and passes both thresholds |
| `KnowledgeSearch.EvidenceIff` | backend/app/application/services/knowledge.py:573-579 | with m of n terms matched and vector score v, cut to 0..1, a candidate is evidence iff m >= 2 and 4m + nv >= 3n |
| `KnowledgeSearch.MorePointsRankFirst` | backend/app/application/services/knowledge.py:575-599 | of two candidates for a query the one with the larger 4m + nv scores higher |
| `KnowledgeSearch.CloserRanksFirst` | backend/app/application/services/knowledge.py:575-599 | among equal matches the one whose vector is closer scores higher |
| `KnowledgeSearch.VectorScoreDecidesOnlyInBetween` | backend/app/application/services/knowledge.py:573-579 | fewer than half of the terms is never evidence, three quarters (and two) always is, whatever the vector score |
| `KnowledgeSearch.OneTermFindsNothing` | backend/app/application/services/knowledge.py:578-579 | a query of fewer than two terms has no results |
| `KnowledgeSearch.ReturnedAreTheBest` | backend/app/application/services/knowledge.py:599-600 | returned and left-out hits are together the accepted ones; none left out scores higher; none is left out while there is room |
| `KnowledgeSearch.SortIsStable` | backend/app/application/services/knowledge.py:599 | equal scores keep the order of the vector search |
| `InventoryServices.InventoryService.FirstCandidates` | backend/app/application/services/inventory.py:319-341 | the first loop finds the hits of the first priority with any |
| `InventoryServices.InventoryService.JoinExact` | backend/app/application/services/inventory.py:342-378 | the second pass joins exactly the assets hit at priorities up to the ceiling |
| `InventoryServices.InventoryService.Automatic` | backend/app/application/services/inventory.py:319-392 | both passes together refine the set specification: matched to `a` iff the evidence is `{a}`, conflicting iff it has more than one asset, unmatched iff it is empty |
| `InventoryTheorems.DecisionIsDetermined` | backend/app/application/services/inventory.py:319-392 | the specification has one answer, so no order of identities or rows matters |
| `InventoryTheorems.DecisionIff` | backend/app/application/services/inventory.py:319-392 | row by row: matched to `a` iff some row decides and all that do name `a`, conflicting iff two that do differ, nothing iff no row is hit; the strong hits decide, or else those of the strongest of alias, hostname, address |
| `InventoryTheorems.StrongRowsConflict` | backend/app/application/services/inventory.py:368-378 | two reported rows at fqdn or stronger that name different assets always conflict |
| `InventoryTheorems.ScansAddNoEvidence` | backend/app/application/services/inventory.py:329-334 | what one scan writes changes no automatic decision about any observation |
| `InventoryTheorems.ScanOutcome` | backend/app/application/services/inventory.py:379-416 | a scan without a human decision: observation, log, conflicts and links follow the decision, and only its own rows change |
| `InventoryTheorems.DecidedScanOutcome` | backend/app/application/services/inventory.py:304-318 | one with a human decision repeats it, and logs and records nothing |
| `InventoryTheorems.WeakerEvidenceDoesNotInterfere` | backend/app/application/services/inventory.py:364-380 | with a first hit at fqdn or stronger, alias, hostname and address identities and rows never change the decision |
| `InventoryServices.InventoryService.CorrelatePrometheus` | backend/app/application/services/inventory.py:299-416 | the newest manual decision wins; otherwise the automatic one; observation, identities, log and conflicts |
| `InventoryServices.InventoryService.FindMatches` | backend/app/application/services/inventory.py:607-623 | the per-kind look-ups find every asset some identity is linked to |
| `InventoryServices.InventoryService.FindAsset` | backend/app/application/services/inventory.py:604-647 | found iff one asset matches and contradicts no identity; ambiguous otherwise unless nothing matches |
| `InventoryServices.InventoryService.ReplaceIdentities` | backend/app/application/services/inventory.py:687-725 | every listed identity is linked once, known ones keep their source, nothing is removed |
| `InventoryServices.InventoryService.IngestCmdbRecord` | backend/app/application/services/inventory.py:236-297 | the whole new state: observation, identities, asset, log, conflicts |
| `InventoryServices.InventoryService.MergeFields` | backend/app/application/services/inventory.py:734-763 | strong fields are filled when empty, kept when set, and a conflict is recorded for each that differs |
| `InventoryServices.InventoryService.ManualDecision` | backend/app/application/services/inventory.py:1336-1368 | observation and all its identities follow the decision; refused for an unknown observation or asset |
| `InventoryTheorems.IngestNeverWidens` | backend/app/application/services/inventory.py:639-642 | one ingestion never adds a value of a kind to an asset that has one |
| `InventoryTheorems.IdentitiesAre` | backend/app/application/services/inventory.py:195-229 | a record's identities are its fields with a normal form, its addresses and its aliases, and no others |
| `InventoryTheorems.FindingIff` | backend/app/application/services/inventory.py:604-647 | a record joins an asset iff all matching rows name it and none of its identities contradicts the values the asset is known by; it is unmatched iff no row matches |
| `InventoryTheorems.IngestOutcome` | backend/app/application/services/inventory.py:262-285 | observation and log name the asset and say whether the record was ambiguous; no other asset changes |
| `InventoryTheorems.IngestFields` | backend/app/application/services/inventory.py:734-763 | each strong field is kept where set and else filled from the record; others stay unset |
| `InventoryTheorems.IngestConflicts` | backend/app/application/services/inventory.py:286-296 | the conflicts an ingestion records are those of ambiguity and of strong fields whose normal forms differ, exactly |
| `InventoryTheorems.ImportFreezesValues` | backend/app/application/services/inventory.py:236-297 | over any import of distinct records, the values an asset is known by under a kind never change once there are any |
| `InventoryTheorems.ImportStaysTidy` | backend/app/application/services/inventory.py:236-297 | over any import of distinct records, cloud id, serial, asset tag, CMDB id, fqdn and hostname each hold at most one value per asset, and recorded field conflicts are about addresses only |
| `InventoryTheorems.FoundAgrees` | backend/app/application/services/inventory.py:742-761 | an asset found for a record agrees with it on every single-valued strong field |
| `InventoryTheorems.ImportKeepsStrongFields` | backend/app/application/services/inventory.py:742-763 | no import changes a strong field that is set |
| `InventoryTheorems.ScanKeepsOneValueIff` | backend/app/application/services/inventory.py:379-393 | a match keeps the single-valued kinds single iff each value of the scan is the only one, in the scan and among the asset's own |
| `InventoryTheorems.ScanBringsSecondSerial` | backend/app/application/services/inventory.py:379-393 | two rows and a scan after which an asset is known by two serial numbers |
| `InventoryTheorems.DecisionsOutlastAutomation` | backend/app/application/services/inventory.py:304-318 | over any run of imports, scans and reviews an observation and its identities stay where the newest manual decision put them |
| `InventoryTheorems.ReviewOutcome` | backend/app/application/services/inventory.py:1348-1364 | a match links the observation and all its rows, anything else unlinks them, and nothing else changes |
| `InventoryTheorems.ReingestionKeepsDecisionIff` | backend/app/application/services/inventory.py:240-275 | were a decided record ingested again, the decision would stand iff its asset is the only match and contradicts no identity |
| `InventoryTheorems.RelinkIsIdempotent` | backend/app/application/services/inventory.py:687-725 | replacing with an unchanged list adds and changes nothing |
| `StreamSelection.SlotsIff` | backend/app/application/services/integrations.py:80-91 | which slots each type offers; a ServiceNow integration ticketing iff it has incidents, CMDB iff it has the CMDB |
| `StreamSelection.BootstrapSettles` | backend/app/application/services/integrations.py:245-301 | existing rows stay, exactly the due slots are added, at most one active row per stream, and every integration is enabled iff it owns an active row |
| `StreamSelection.BootstrapIsIdempotent` | backend/app/application/services/integrations.py:245-301 | a second bootstrap, in any order, changes nothing |
| `StreamSelection.BootstrapFillsExactly` | backend/app/application/services/integrations.py:258-293 | a stream is served afterwards iff it was, or the first integration listed that offers some new slot of it is enabled |
| `StreamSelection.OrdersServeIff` | backend/app/application/services/integrations.py:248-270 | some order of the query serves it iff it was served or an enabled integration offers a new slot of it; every order does iff it was, or some new slot of it is offered by enabled integrations only |
| `StreamSelection.RivalsDependOnOrder` | backend/app/application/services/integrations.py:262-270 | two integrations with one slot, the disabled one listed first: the stream stays empty and the enabled one is switched off; listed last, the enabled one is selected |
| `StreamSelection.SelectKeeps` | backend/app/application/services/integrations.py:382-457 | a selection keeps the invariants, selects the requested row and changes no other stream's rows |
| `StreamSelection.UnconfirmedDisplacesNothing` | backend/app/application/services/integrations.py:419-423 | without confirmation every active row stays active |
| `StreamSelection.ConfirmedSelects` | backend/app/application/services/integrations.py:392-457 | with it the integration's row in the stream becomes the active one; without such a row nothing changes |
| `StreamSelection.CreateKeeps` | backend/app/application/services/integrations.py:493-554 | creation keeps the invariants and every existing row |
| `StreamSelection.CreatedRows` | backend/app/application/services/integrations.py:518-540 | each offered slot gets a row, selected iff the integration is to be enabled and the stream has no source |
| `StreamSelection.DisableKeeps` | backend/app/application/services/integrations.py:602-611 | disabling keeps the invariants, releases all rows of the integration and no other |
| `StreamSelection.RunKeepsSelection` | backend/alembic/versions/20260813_0017_stream_sources.py:66-73 | over every run: one active row per stream at most, enabled = active, and derived enablement once a bootstrap or selection follows the last outside integration |
| `SelectionServices.IntegrationService.InsertMissing` | backend/app/application/services/integrations.py:259-294 | the rows added for one integration, the table legal after every insertion |
| `SelectionServices.IntegrationService.BootstrapActivations` | backend/app/application/services/integrations.py:245-301 | both loops compute the specified state |
| `SelectionServices.IntegrationService.SettleAll` | backend/app/application/services/integrations.py:295-299 | every integration follows its rows |
| `SelectionServices.IntegrationService.SelectSource` | backend/app/application/services/integrations.py:382-457 | accepted iff the source offers the stream, is available and the switch is confirmed where one is needed; then one row moves; refused calls leave the bootstrapped state |
| `SelectionServices.IntegrationService.ApplySelection` | backend/app/application/services/integrations.py:426-457 | deselect before select, the table legal after each write, then the two owners; the result is the specified state |
| `SelectionServices.OnlyTheseOwnersChange` | backend/app/application/services/integrations.py:443-457 | updating just the two integrations concerned leaves all of them in line with their rows |
| `SelectionServices.IntegrationService.Create` | backend/app/application/services/integrations.py:493-554 | accepted iff no slot is taken; the new state |
| `SelectionServices.IntegrationService.SetEnabled` | backend/app/application/services/integrations.py:584-619 | refused unless the integration has one source; enabling selects, disabling releases |
| `SelectionMigration.Upgrade` | backend/alembic/versions/20260814_0018_selected_sources.py:34-87 | the grouping and selection loops select exactly the winner of every group and derive enablement |
| `SelectionMigration.GroupRows` | backend/alembic/versions/20260814_0018_selected_sources.py:34-36 | the groups hold exactly their rows |
| `SelectionMigration.Best` | backend/alembic/versions/20260814_0018_selected_sources.py:47-53 | the winner is a row no other beats |
| `SelectionMigration.SelectInGroup` | backend/alembic/versions/20260814_0018_selected_sources.py:42-53 | a winner iff some row of the group was active or enabled |
| `SelectionMigration.MigrationEstablishesSelection` | backend/alembic/versions/20260814_0018_selected_sources.py:34-87 | from any legal older table: at most one selected row per group, one wherever any was active or enabled, an active row stays, an integration with rows is enabled iff it owns one |
| `SelectionMigration.NewestIsSelected` | backend/alembic/versions/20260814_0018_selected_sources.py:47-53 | without an active row in the group no enabled row was touched later than the one selected, and ties go to the greater id |
| `SelectionMigration.MigrationHandsOver` | backend/alembic/versions/20260814_0018_selected_sources.py:62-80 | the outcome, read as one connector's activation rows, is legal for the service, and every integration with rows is enabled iff it owns an active one |
| `SelectionMigration.MigrationIgnoresRowOrder` | backend/alembic/versions/20260814_0018_selected_sources.py:34-70 | the outcome does not depend on the order of the rows |
| `HealthAssessment.Assess` | backend/app/application/services/operational_tools.py:232-421 | the accumulated severity is the join of all contributions; events, issues and counts as specified |
| `HealthAssessment.AssessMetrics` | backend/app/application/services/operational_tools.py:249-307 | reachability, four metrics and the metrics error, joined |
| `HealthAssessment.KeepOnePerOccurrence` | backend/app/application/services/operational_tools.py:345-355 | the de-duplicating loop |
| `HealthAssessment.Partition` | backend/app/application/services/operational_tools.py:361-397 | the partitioning loop |
| `HealthAssessment.CountImpacts` | backend/app/application/services/operational_tools.py:399-402 | the counting loop |
| `HealthAssessment.CriticalIff` | backend/app/application/services/operational_tools.py:249-406 | critical iff unreachable, a metric at its critical threshold, or an active event with some breach |
| `HealthAssessment.LogsAloneAreNeverCritical` | backend/app/application/services/operational_tools.py:405-406 | log events without a breach never make a target critical that is not unreachable |
| `HealthAssessment.HealthyIff` | backend/app/application/services/operational_tools.py:239-421 | healthy iff reachable, no breach, no metrics error, no active event and fewer than two likely ones |
| `HealthAssessment.WarningIff` | backend/app/application/services/operational_tools.py:249-421 | warning iff not critical and some metric is breached, an event is active or two are likely |
| `HealthAssessment.IssuesMean` | backend/app/application/services/operational_tools.py:256-302 | which metrics are reported as issues, by their thresholds |
| `HealthAssessment.ActiveIff` | backend/app/application/services/operational_tools.py:213-219 | some event is active iff the summary of one within two hours of the metrics reads as a degradation |
| `HealthAssessment.DegradationWarns` | backend/app/application/services/operational_tools.py:405-406 | such an event makes the target at least a warning, and critical with a breach |
| `HealthAssessment.OthersAreSilent` | backend/app/application/services/operational_tools.py:190-212 | events outside the window, or about life cycle, monitoring pipeline or configuration, never move the severity |
| `HealthAssessment.LikelyAreCounted` | backend/app/application/services/operational_tools.py:220-221 | the likely events are the kept ones in the window that match no pattern and whose category names oom, crashes, filesystem or application_failures |
| `HealthAssessment.RelevantIff` | backend/app/application/services/operational_tools.py:361-397 | relevant are the kept events in the window that are not about a life cycle |
| `HealthAssessment.SeverityIsMonotone` | backend/app/application/services/operational_tools.py:256-302 | worse metrics never lower the severity, whatever the events |
| `HealthAssessment.ActiveWeightNeverFalls` | backend/app/application/services/operational_tools.py:213-219 | a further event never lowers the number of active ones, and a takeover leaves it as it is |
| `HealthAssessment.LikelyWeightFallsIff` | backend/app/application/services/operational_tools.py:220-226 | it lowers the number of likely ones iff it takes over one of them with a category that is not likely, and then by one |
| `HealthAssessment.SeverityFallsIff` | backend/app/application/services/operational_tools.py:345-421 | it lowers the severity iff it does that with just two likely events, no active one, no breach and the target not unreachable |
| `HealthAssessment.TakeoverCanLower` | backend/app/application/services/operational_tools.py:350-354 | two failed jobs are a warning; one of them reported again as an exception leaves the target healthy |
| `HealthAssessment.DeduplicationRepresents` | backend/app/application/services/operational_tools.py:345-355 | each distinct occurrence is kept once, by an event of its best category |
| `HealthAssessment.PriorityIsPosition` | backend/app/application/services/operational_tools.py:328-344 | categories rank by their place in the list, before all others |
| `HealthAssessment.EventsPartitionOccurrences` | backend/app/application/services/operational_tools.py:355-397 | relevant and unrelated events partition the distinct occurrences |
| `HealthAssessment.CountsAddUp` | backend/app/application/services/operational_tools.py:399-402 | impact counts sum to the number of events counted |
| `CmdbImport.CountRows` | backend/app/application/services/cmdb.py:393-403 | the first pass counts every non-empty key and every checksum |
| `CmdbImport.ClassifyRow` | backend/app/application/services/cmdb.py:406-431 | one row's errors, its validity and whether it counts as a duplicate |
| `CmdbImport.ClassifyRows` | backend/app/application/services/cmdb.py:404-441 | the second pass: one record per row, in order, and the three tallies |
| `CmdbImport.ValidIff` | backend/app/application/services/cmdb.py:407-413 | valid iff normalisation found nothing and no other row has its checksum, or its key if it has one |
| `CmdbImport.ErrorsNameDuplicates` | backend/app/application/services/cmdb.py:408-412 | the errors added to a row name what it shares |
| `CmdbImport.ValidRowsAreDistinct` | backend/app/application/services/cmdb.py:407-413 | a valid row's key and checksum are no other row's |
| `CmdbImport.TallyAddsUp` | backend/app/application/services/cmdb.py:404-415 | valid + invalid = rows, duplicates are invalid |
| `CmdbImport.TallyCounts` | backend/app/application/services/cmdb.py:412-415 | the tallies are the numbers of valid rows and of rows whose checksum another has |
| `CmdbImport.RunKeepsInv` | backend/app/application/services/cmdb.py:442-454 | over every run the only imported version of a dataset is its current one, and its versions are numbered from 1 on without a gap |
| `CmdbImport.UploadTakesNext` | backend/app/application/services/cmdb.py:225-235 | an upload takes the number after as many versions as there are |
| `CmdbImport.ImportSupersedes` | backend/app/application/services/cmdb.py:442-454 | an import makes its version current, supersedes the one before and changes no other |
| `CmdbImport.CMDBService.UploadVersion` | backend/app/application/services/cmdb.py:224-244 | a new version gets the number after the dataset's highest |
| `CmdbImport.CMDBService.ImportVersion` | backend/app/application/services/cmdb.py:361-455 | the previous version is superseded; an imported version, or row numbers already stored for it, are refused |
| `CmdbImport.ColumnIndexLoop` | backend/app/application/services/cmdb.py:43-50 | the loop computes the base-26 value of the leading letters less one, and 0 without a match |
| `CmdbImport.ColumnsAreNamedOnce` | backend/app/application/services/cmdb.py:43-50 | column references and column numbers correspond one to one |
| `CmdbImport.ColumnExamples` | backend/app/application/services/cmdb.py:43-50 | A, Z and AA are 0, 25 and 26; references that do not match are 0 |
| `CmdbImport.PlaceCells` | backend/app/application/services/cmdb.py:126-149 | the row is as wide as its furthest cell; each place holds the last cell written there, or "" |
| `LogQl.EscapeIsOnePass` | backend/app/application/services/loki.py:115-116 | the three sequential replacements are one replacement per character |
| `LogQl.UnescapeInverts` | backend/app/application/services/loki.py:115-116 | reading a quoted escaped value gives back the value, and stops at its quote |
| `LogQl.SelectorRoundTrip` | backend/app/application/services/loki.py:119-130 | a printed selector parses to exactly the usable labels; printing fails iff there are none |
| `LogQl.SelectorIgnoresInsertionOrder` | backend/app/application/services/loki.py:119-130 | equal label maps print alike, whatever their insertion order |
| `RateLimiting.InMemoryRateLimiter.Check` | backend/app/core/rate_limit.py:13-23 | for any limits and windows: allowed iff fewer than `limit` of everything ever accepted for the key have outlived every cut-off since; the history grows by the accepted attempt; other keys are untouched |
| `RateLimiting.CheckOneKey` | backend/app/core/rate_limit.py:16-23 | what pruning keeps is what still counts of everything ever accepted, and stays so after the check |
| `RateLimiting.DequeIsTheRestOfReplay` | backend/app/core/rate_limit.py:13-23 | for any limit and window, over every run on a clock that never runs back, the deque is the end of what a limiter that forgets nothing accepted |
| `RateLimiting.DequeDecidesAsReplay` | backend/app/core/rate_limit.py:13-23 | hence both decide alike |
| `RateLimiting.ReplayIsAdmissible` | backend/app/core/rate_limit.py:16-23 | every accepted instant found fewer than `limit` earlier ones in its window |
| `RateLimiting.NoWindowExceedsLimit` | backend/app/core/rate_limit.py:9-23 | so no half-open interval as long as the window holds more than `limit` accepted instants |
| `RateLimiting.ClosedWindowBound` | backend/app/core/rate_limit.py:16-23 | a closed interval as long as the window holds at most `limit` accepted instants beside those at its left end, so at most twice the limit, and more than the limit only with instants at both ends |
| `RateLimiting.TwiceTheLimitPasses` | backend/app/core/rate_limit.py:16 | for every limit, a burst at each end of a closed window is accepted whole |

## Left out

Documents and the knowledge index

- Service calls are atomic. An index turn interleaved with a deletion between its store requests and its commit is not modelled, nor are two workers.
- One tenant. `KnowledgeIdentityError` is one flag for a whole round; a document of another tenant is not modelled.
- The digest and `uuid5` are injective; a path is a canonical name with a flag for being in NFC. Times are numbers.
- DocumentServices.ManagedDocumentService.UpsertStable: its reading of the clock and the stamp of its commit are one number; different rows of a pass have different ones.
- DocumentServices.ManagedDocumentService.Upload: filename, size, type and disk checks are a flag and a function; the temporary file and its rename are one write.
- DocumentServices.ManagedDocumentService.Delete: eligibility is a flag.
- DocumentServices.ManagedDocumentService.Reconcile: the walk, and which files change while they are hashed, come from outside; a disabled source, delivery columns, titles and types are not modelled.
- DocumentServices.LocalKnowledgeService.IndexDocument: a document of another tenant is not told from an unregistered connector.
- DocumentServices.LocalKnowledgeService.ProcessPending: the batch is what the query returned; that it is the oldest is a premise of the queue theorems.
- Parsing, the content sanitiser and embeddings are parameters. `DocumentDeliveryWorker`, `_queue` and the Qdrant client are not part of this model.
- The columns `knowledge_indexed_at` and `last_seen_at` are not modelled beyond the update of `updated_at` they cause.
- KnowledgeSearch.Search: the tokeniser and the vector search are parameters, scores are exact reals, and the sort is a function; the tenant filter is not modelled.

Inventory

- InventoryServices.InventoryService.MergeFields: only the strong fields; descriptive fields are overwritten freely, and the canonical name follows from the others.
- InventoryServices.InventoryService.IngestCmdbRecord: confidence, match methods, the observation's raw fields and the values stored with a conflict are not modelled.
- InventoryServices.InventoryService.CorrelatePrometheus: confidence, match methods and the values stored with a conflict are not modelled.
- The normalisers, `split_addresses` and `endpoint_identity` are parameters; a repeated identity is harmless, so the list is not thinned.
- InventoryTheorems.DecisionsOutlastAutomation: the record of a decided observation is not ingested again, as `import_version` ingests new records only; `ReingestionKeepsDecisionIff` says what would happen.
- `reconcile_cmdb_relationships`, topology and the read-only queries would add only easy members.

Stream selection

- One connector. Legacy configuration flags switched beside an integration, secrets, display names and audit events are not modelled.
- SelectionServices.IntegrationService.Update: the bulk update and the single-row update of a selection are one write each.
- SelectionMigration.Upgrade: timestamps and ids are ordered numbers; the ServiceNow and Zammad configuration tables, which follow an integration's flag, are not modelled.

Health assessment

- HealthAssessment.Assess: evidence texts, recommendations, correlation details and the question mode are not modelled; which pattern a summary matches and the timestamp parser are parameters, and items that are not dictionaries are not passed in.

CMDB import

- CmdbImport.CMDBService.ImportVersion: mapping and header checks, row limits and the inventory step are not modelled.
- CmdbImport.CMDBService.UploadVersion: file checks and soft-deleted datasets, which refuse uploads, are not modelled.
- CmdbImport.ColumnIndexLoop: row numbers in digits other than 0 to 9 are not modelled.
- CmdbImport.PlaceCells: decoding a cell's text is not modelled.
- `_unique_headers` is not claimed to be duplicate-free: the headers "A", "A", "A (2)" defeat it.

Others

- RateLimiting.InMemoryRateLimiter.Check: the clock is a parameter that never runs back; `reset` is not modelled.
- LogQl.SelectorRoundTrip: the reader is a model of LogQL's matcher syntax with the three escapes the printer uses; the rest of LogQL is not modelled.
- HTTP endpoints, schemas, authentication, scheduling, registration, certificates, encryption and the frontend.
