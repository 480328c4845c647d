# GroundGraph: a verified model

GroundGraph ingests documents, extracts a knowledge graph from them, and answers questions from
retrieved evidence. This project models its algorithms and protocols in Dafny 4.11 and proves what
they promise. `dafny verify dfyconfig.toml` checks everything.

| module | what it models |
|---|---|
| `Basics`, `Text`, `Wrappers`, `StableSort` | shared functions, strings and lines, optional values and results, sorting by score |
| `ChunkWindow`, `Chunker`, `HeadingPaths`, `ChunkDocument` | cutting a document into sections and overlapping chunks around protected ranges |
| `MarkdownScanners`, `MarkdownDocument`, `MarkdownBlocks` | finding the code blocks, tables and list items to protect, and whether they stay whole in the chunks |
| `EditDistance`, `EntityResolver` | matching entity mentions to a growing repository |
| `GraphStore`, `Outbox`, `OutboxProtocol` | the graph, the outbox table, and any number of workers between them |
| `Traversal` | bounded breadth-first search for evidence in the graph |
| `Ingestion`, `IngestionRuns`, `IngestionService` | document versions, checkpoints, and concurrent ingestion |
| `Fusion`, `HybridFusion` | rank fusion of two and of three rankings |
| `Answering`, `QueryWorkflow` | building and checking answers, and the retrying workflow |
| `JsonValue` | copying JSON values out of object graphs with cycles |
| `ExecutionStore` | compare-and-set status changes of runs |

Identifiers are drawn from a supply that never repeats, scores are real numbers, times are integers,
and one SQL or Cypher statement, or one committed transaction, is one step. Where a call reads before it
writes, what it read may be out of date: the outbox takes the row that was read as an argument, and
ingestion runs let every read see any state committed before the write.

Where code and documentation differ, the model follows the code:

- A window whose protected range ends exactly at the budget is cut to one character, and the rest of the
  range is jumped over: a document that is one long list loses its last item
  (`MarkdownDocument.ListDocumentLosesItsLastItem`).
- A list item in a code block makes the rest of the block disappear if the document exceeds one chunk
  (`MarkdownBlocks.ListInCodeIsLost`).
- Lines that look like headings count as headings in code blocks too, where they open a section and so tear
  the block (`MarkdownBlocks.HeadingTearsCodeBlock`).
- `MarkdownBlocks.ScannedDocument` says exactly when a document loses text or has a code block, table or
  list item torn, unless blocks of different categories share a line in a section that exceeds one chunk.
- A fact projected before its subject has no edge until it is projected again
  (`GraphStore.OrderMattersForEdges`), and one without an observation time changes with every projection
  (`GraphStore.IdempotentIffTimed`).
- An entity query returns at most 100 rows, so a name can be created twice in a type with more entities.
  `EntityResolver.SeparationLastsIff` says exactly when entities stay apart, and a history of 101 calls gets
  to where they do not (`EntityResolver.PastTheLimitIsReached`).
- Graph evidence with the identifier of a chunk makes the fusion raise (`HybridFusion.MixedIdentifiersRaise`),
  and merging validities can make it raise too (`HybridFusion.MergingCanEmptyValidity`);
  `HybridFusion.EmptyValidityRaises` says exactly when.
- Headings below a skipped level nest under their siblings (`HeadingPaths.SkippedSiblingsNest`).
- The docstring of the claim validator promises to downgrade a claim whose evidence is partly unknown to
  unsupported; the code keeps it as partially supported (`Answering.CheckedIsGrounded`).

## Model

| member | source | states |
|---|---|---|
| `Outbox.DelayBounds` | src/groundgraph/infrastructure/postgres/outbox_repository.py:122-123 | the retry delay never shrinks with more attempts, lies between 4 seconds and an hour from the first attempt on, and reaches the hour at attempt 11 |
| `Outbox.SelectionExists` | src/groundgraph/infrastructure/postgres/outbox_repository.py:47-61 | the claiming query always has an answer: distinct, unlocked, eligible rows, oldest first, as many as the limit allows, and no eligible row left out that is older than a chosen one |
| `Outbox.ClaimAllExactly` | src/groundgraph/infrastructure/postgres/outbox_repository.py:65-77 | each selected row is claimed once under a token of its own, counts one more attempt, and no other row changes |
| `Outbox.OutboxRepository.Add` | src/groundgraph/infrastructure/postgres/outbox_repository.py:20-37 | a new event is stored pending and available from its creation; a known identifier is refused |
| `Outbox.OutboxRepository.ClaimBatch` | src/groundgraph/infrastructure/postgres/outbox_repository.py:43-77 | claims exactly the rows the query returned, under tokens never used before, and hands out those events |
| `Outbox.OutboxRepository.MarkCompleted` | src/groundgraph/infrastructure/postgres/outbox_repository.py:79-100 | the error for every refusal on the row that was read, and the guarded update that changes the row only under its current token |
| `Outbox.OutboxRepository.MarkFailed` | src/groundgraph/infrastructure/postgres/outbox_repository.py:102-128 | the same for a failure, with the retry time computed from the row that was read |
| `OutboxProtocol.ClaimsAreSeparated` | src/groundgraph/infrastructure/postgres/outbox_repository.py:43-128 | in every run with any workers, crashes and lost leases, between two claims of an event the first was given up by its holder or its lease had run out, and the first was never completed |
| `OutboxProtocol.OnlyTheHolderMarks` | src/groundgraph/infrastructure/postgres/outbox_repository.py:79-128 | a row changes only by a claim that finds it free or its lease run out, or by the holder of its current token |
| `OutboxProtocol.CompletedIsFinal` | src/groundgraph/infrastructure/postgres/outbox_repository.py:85-99 | a completed row never changes again |
| `OutboxProtocol.LostClaimsStayLost` | src/groundgraph/infrastructure/postgres/outbox_repository.py:68-71 | a token that a row no longer carries never comes back to it |
| `OutboxProtocol.StaleWorkersAreRefused` | src/groundgraph/infrastructure/postgres/outbox_repository.py:83-99 | a worker whose claim is lost changes no row, whatever it had read |
| `OutboxProtocol.RunKeepsInv` | src/groundgraph/infrastructure/postgres/outbox_graph_projector.py:121-174 | every step keeps: rows follow the log of their event, work and commits are backed by rows, completed rows were committed, and the graph is the projection of the commits |
| `OutboxProtocol.BatchIsRun` | src/groundgraph/infrastructure/postgres/outbox_repository.py:43-77 | claiming a batch is a run of single claims: every selected row is still free when its turn comes, and rows, tokens and what the worker holds come out the same |
| `OutboxProtocol.CompletedIsInGraph` | src/groundgraph/infrastructure/postgres/outbox_graph_projector.py:155-165 | a completed event was committed and its node is in the graph, with the event's content unless another event asks for the same node; an event that the domain model refuses never completes |
| `OutboxProtocol.DrainedRunsAgree` | src/groundgraph/infrastructure/postgres/outbox_graph_projector.py:53-174 | two runs that completed the same consistent events leave the same nodes, whatever the order, interleaving, repetition and crashes |
| `OutboxProtocol.EdgesFollowCommits` | src/groundgraph/infrastructure/postgres/outbox_graph_projector.py:53-165 | exactly which edges the graph of a run has: those it started with, and those that some fact or mention brings one of whose commits came when the ends were known |
| `OutboxProtocol.DrainedGraphsAgree` | src/groundgraph/infrastructure/postgres/outbox_graph_projector.py:53-174 | two such runs leave the same graph, edges included, exactly when each fact that lacks an edge at the start was committed after its ends in both runs or in neither |
| `OutboxProtocol.NeverStuck` | src/groundgraph/infrastructure/postgres/outbox_repository.py:46-74 | attempts count the claims, and an event that is not completed can be claimed exactly from its retry time and lease expiry on |
| `OutboxProtocol.RetryCountsClaims` | src/groundgraph/infrastructure/postgres/outbox_repository.py:122-123 | the wait after an accepted failure counts the claims so far, although the row may have been read long before |
| `OutboxProtocol.CanComplete` | src/groundgraph/infrastructure/postgres/outbox_graph_projector.py:121-165 | from every reachable state an event that the domain model accepts can be completed once it is free, touching no other row |
| `OutboxProtocol.EventOutcome` | src/groundgraph/infrastructure/postgres/outbox_graph_projector.py:147-174 | where one worker that nobody interferes with leaves a live claim under every combination of lost calls, and when the graph changes |
| `OutboxProtocol.OutboxGraphWorker.ProcessEvent` | src/groundgraph/infrastructure/postgres/outbox_graph_projector.py:147-174 | the worker code does what the protocol steps do, whatever other sessions commit before its graph commit, its reads and its updates; a normal return means that a mark of its claim was accepted and closed it |
| `GraphStore.GraphRepository.CreateEntity` | src/groundgraph/infrastructure/neo4j/repository.py:19-26 | MERGE by identifier: creates the node or overwrites it |
| `GraphStore.GraphRepository.CreateFact` | src/groundgraph/infrastructure/neo4j/repository.py:36-58 | the fact is written always, its subject edge only to an existing subject, its object edge only after that and to an existing object |
| `GraphStore.GraphRepository.CreateMention` | src/groundgraph/infrastructure/neo4j/repository.py:72-83 | the mention is written always, its edge only to an existing chunk |
| `GraphStore.GraphRepository.ProjectEvent` | src/groundgraph/infrastructure/postgres/outbox_graph_projector.py:35-97 | projects by event type; a refused payload leaves the graph alone, an unknown type does nothing |
| `GraphStore.IdempotentIffTimed` | src/groundgraph/infrastructure/postgres/outbox_graph_projector.py:91 | projecting again changes nothing, at whatever times, exactly when the event is no fact without observation time |
| `GraphStore.NothingIsLost` | src/groundgraph/infrastructure/neo4j/repository.py:19-83 | no sequence of projections loses a node or an edge |
| `GraphStore.NodesConverge` | src/groundgraph/infrastructure/neo4j/repository.py:19-83 | with equal payloads per identifier, the nodes depend only on the set of projected events |
| `GraphStore.LinksExactly` | src/groundgraph/infrastructure/neo4j/repository.py:51-56 | exactly which edges a sequence of projections leaves: an edge is there if and only if some projection asked for it when its ends existed |
| `GraphStore.EdgesByOrder` | src/groundgraph/infrastructure/neo4j/repository.py:36-83 | so the edges are those at the start and those of facts projected after their subject, or after both ends, and of mentions of known chunks |
| `GraphStore.SecondPassHeals` | src/groundgraph/infrastructure/neo4j/repository.py:51-57 | after two passes over the same events, in any two orders, exactly the edges asked for are there |
| `GraphStore.TwoPassesConverge` | src/groundgraph/infrastructure/neo4j/repository.py:19-83 | after two passes the whole graph depends only on the set of events |
| `GraphStore.OrderMattersForEdges` | src/groundgraph/infrastructure/neo4j/repository.py:51-57 | after one pass it does not: a fact projected before its subject stays without the edge |
| `ChunkWindow.WindowEndBounds` | src/groundgraph/application/ingestion/chunker.py:158-165 | a window is never empty, and one over the budget ends where a protected range ends |
| `ChunkWindow.CoverageExactly` | src/groundgraph/application/ingestion/chunker.py:157-199 | a stepping stone for every list of ranges, overlapping ones too: all visible text is in some chunk exactly when no round moves the cursor past visible text that no window has reached |
| `ChunkWindow.LossIsEdge` | src/groundgraph/application/ingestion/chunker.py:243-258 | with disjoint ranges a round loses text exactly when a range that starts at or before the window ends exactly at the budget, with visible text out of reach |
| `ChunkWindow.DisjointCoverage` | src/groundgraph/application/ingestion/chunker.py:157-199 | with disjoint ranges, nothing visible is lost exactly when no round meets that case |
| `ChunkWindow.RoomyRangesLoseNothing` | src/groundgraph/application/ingestion/chunker.py:157-199 | disjoint ranges shorter than the budget that end before the text does lose nothing |
| `ChunkWindow.NestedRangeLosesText` | src/groundgraph/application/ingestion/chunker.py:157-199 | ranges that overlap: a range that fits the budget, with another one beginning inside it, loses all its visible text from there on |
| `ChunkWindow.PlainListLosesItsLastItem` | src/groundgraph/application/ingestion/chunker.py:251-258 | a whole family where text is lost: adjacent items over a section that exceeds the budget lose the last item but for one character |
| `ChunkWindow.ProtectedRangesStayWhole` | src/groundgraph/application/ingestion/chunker.py:157-199 | no chunk starts or ends strictly inside a range exactly when in no round a range that starts at or before the window ends at the budget and goes on behind the window's first character; then nothing visible is lost |
| `ChunkWindow.VisibleTextStaysTogether` | src/groundgraph/application/ingestion/chunker.py:157-199 | no chunk starts or ends between visible characters of one range exactly when in no round the window starts on visible text of a range that ends exactly at the budget and holds more of it; then nothing visible is lost |
| `ChunkWindow.ChunksAreOrdered` | src/groundgraph/application/ingestion/chunker.py:181-197 | chunks start in strictly increasing order, and only a protected range makes one exceed the budget |
| `Chunker.BuildLineToCharMap` | src/groundgraph/application/ingestion/chunker.py:201-207 | the map from line numbers to the characters they start at |
| `Chunker.LineToCharFinds` | src/groundgraph/application/ingestion/chunker.py:201-207 | the line of a position is in the map, with the start of that line |
| `Chunker.AddRanges` | src/groundgraph/application/ingestion/chunker.py:221-233 | line intervals become character ranges; those outside the section and empty ones are skipped |
| `Chunker.BuildProtectedRangesChar` | src/groundgraph/application/ingestion/chunker.py:209-238 | code blocks, tables and list items together, sorted |
| `Chunker.CharRangesInOrder` | src/groundgraph/application/ingestion/chunker.py:221-238 | ordered line intervals become ordered, disjoint ranges, cut at line starts or the end of the text |
| `Chunker.RangesDisjointIff` | src/groundgraph/application/ingestion/chunker.py:209-238 | the protected ranges of a section are disjoint exactly when no two intervals of different categories that start in it share a line |
| `Chunker.FindSafeEnd` | src/groundgraph/application/ingestion/chunker.py:243-258 | the first range that decides where the window ends, in the order of the ranges |
| `Chunker.SkipRange` | src/groundgraph/application/ingestion/chunker.py:192-195 | a start strictly inside a range moves to the end of the first such range |
| `Chunker.CloseWindow` | src/groundgraph/application/ingestion/chunker.py:158-165 | where a window ends |
| `Chunker.ChunkText` | src/groundgraph/application/ingestion/chunker.py:130-199 | the chunks of a section: nothing for white space, one if it fits, otherwise the window loop, which ends for every list of ranges |
| `Chunker.LinesEnclose` | src/groundgraph/application/ingestion/chunker.py:172-179 | every kept character lies on a reported line; the last line is tight, the first up to a leading line break |
| `Chunker.SectionCoverage` | src/groundgraph/application/ingestion/chunker.py:130-199 | a section keeps all its visible text exactly when it fits or no round meets the edge case |
| `Chunker.SectionCuts` | src/groundgraph/application/ingestion/chunker.py:130-199 | no chunk of a section starts or ends strictly inside one of its own protected ranges exactly when it fits or no round cuts one at the edge, and then it keeps all its visible text |
| `Chunker.SectionTogether` | src/groundgraph/application/ingestion/chunker.py:130-199 | no chunk of a section starts or ends between visible characters of one of its ranges exactly when it fits or no round shaves text off one at the edge |
| `Chunker.ListSectionLosesItsLastItem` | src/groundgraph/application/ingestion/chunker.py:130-199 | a section of list items only, each shorter than the budget that they exceed together, loses its last item but for the first character |
| `ChunkDocument.CutsPartition` | src/groundgraph/application/ingestion/chunker.py:104-128 | the sections partition the lines of the body, and each but the first starts at a heading line |
| `ChunkDocument.ScanFindsCuts` | src/groundgraph/application/ingestion/chunker.py:104-128 | the single pass finds the same cuts as the definition by headings |
| `ChunkDocument.MatchHeading` | src/groundgraph/application/ingestion/chunker.py:105-113 | the first heading in the list that a line matches; one of level 0 hides the others |
| `ChunkDocument.SplitByHeading` | src/groundgraph/application/ingestion/chunker.py:94-128 | the sections with their paths, texts and first lines |
| `ChunkDocument.SectionPathsAreAncestors` | src/groundgraph/application/ingestion/chunker.py:120-124 | when no heading skips a level, each section carries the headings that enclose it |
| `ChunkDocument.ChunkAll` | src/groundgraph/application/ingestion/chunker.py:53-92 | all chunks of a document with their paths, numbered in order |
| `ChunkDocument.SectionsLayout` | src/groundgraph/application/ingestion/chunker.py:94-128 | the sections lie in the body one behind the other, each on the lines it is numbered by, and hold every visible character |
| `ChunkDocument.WholeBody` | src/groundgraph/application/ingestion/chunker.py:53-199 | the chunks hold all visible text of the body exactly when each section keeps its own |
| `ChunkDocument.DocumentCoverage` | src/groundgraph/application/ingestion/chunker.py:53-199 | when ranges overlap in no section that is too long for one chunk, the chunks of a document hold all visible text of its body exactly when every such section keeps off the edge case in every round |
| `ChunkDocument.DocumentUncut` | src/groundgraph/application/ingestion/chunker.py:53-199 | with disjoint ranges that hold visible text, no chunk starts or ends strictly inside a range of its own section exactly when every section fits or has no cutting round, and then all visible text is kept |
| `ChunkDocument.ReportedBodyLines` | src/groundgraph/application/ingestion/chunker.py:172-179 | the interval reported for a window encloses the body lines of every character it keeps |
| `HeadingPaths.OpenHeading` | src/groundgraph/application/ingestion/chunker.py:120-122 | the path is shortened by its length, not by the levels of its entries |
| `HeadingPaths.AncestorsAreOpen` | src/groundgraph/application/ingestion/chunker.py:120-122 | the reference: a heading encloses the text exactly while no later heading has its level or a higher one |
| `HeadingPaths.PathsAreAncestors` | src/groundgraph/application/ingestion/chunker.py:120-122 | the path is the chain of enclosing headings on every line exactly when each heading closes only headings at least as deep in the path as its own level |
| `HeadingPaths.OutlinesKeepTheirPaths` | src/groundgraph/application/ingestion/chunker.py:120-122 | a document that never skips a level satisfies that |
| `HeadingPaths.SkippedSiblingsNest` | src/groundgraph/application/ingestion/chunker.py:120-122 | a document that skips one: siblings nest under each other in the path |
| `MarkdownScanners.ExtractCodeBlocks` | src/groundgraph/application/ingestion/parsers.py:115-124 | the scanner returns ordered, disjoint intervals inside the body, each from an odd-numbered fence to the next one |
| `MarkdownScanners.PairsAt` | src/groundgraph/application/ingestion/parsers.py:115-124 | the k-th code block runs from fence line 2k to fence line 2k + 1, counted from 0, and there are half as many blocks as fences |
| `MarkdownScanners.PairsInOrder` | src/groundgraph/application/ingestion/parsers.py:115-124 | code blocks are ordered, disjoint and inside the body |
| `MarkdownScanners.ExtractTables` | src/groundgraph/application/ingestion/parsers.py:126-144 | the scanner returns ordered, disjoint intervals inside the body: the tables that the lemmas below describe |
| `MarkdownScanners.TablesAreTables` | src/groundgraph/application/ingestion/parsers.py:126-144 | each table has a heading row, a separator and then rows only, and ends where the rows do |
| `MarkdownScanners.HeadingRowsAreAtTables` | src/groundgraph/application/ingestion/parsers.py:126-144 | every heading row is in a table found, or directly below one, where it is passed over |
| `MarkdownScanners.TablesInside` | src/groundgraph/application/ingestion/parsers.py:126-144 | tables are ordered, disjoint and inside the body |
| `MarkdownScanners.ExtractListItems` | src/groundgraph/application/ingestion/parsers.py:146-176 | the scanner returns ordered, disjoint intervals inside the body: the items that the lemmas below describe |
| `MarkdownScanners.ItemsAreItems` | src/groundgraph/application/ingestion/parsers.py:146-176 | each item starts at a marker and ends before the line that interrupts it |
| `MarkdownScanners.ListItemsAreMarkers` | src/groundgraph/application/ingestion/parsers.py:146-176 | exactly the marker lines start list items |
| `MarkdownScanners.ItemsInside` | src/groundgraph/application/ingestion/parsers.py:146-176 | list items are ordered, disjoint and inside the body |
| `MarkdownDocument.ScannedRangesDisjoint` | src/groundgraph/application/ingestion/chunker.py:209-238 | the protected ranges of a section of a scanned document are disjoint exactly when no code block, table and list item that start in it share a line |
| `MarkdownDocument.ScannedRangesHoldVisible` | src/groundgraph/application/ingestion/chunker.py:201-238 | every protected range of a scanned document holds visible text of its section |
| `MarkdownDocument.ListDocumentLosesItsLastItem` | src/groundgraph/application/ingestion/chunker.py:130-199 | a document that is one list of unindented items, each shorter than the budget that it exceeds, always loses all of its last item but the first character |
| `MarkdownBlocks.BlocksStayWhole` | src/groundgraph/application/ingestion/chunker.py:53-199 | where blocks of different categories share no line in the sections that exceed one chunk: no chunk of a scanned document starts or ends between visible characters of one code block, table or list item exactly when no section begins inside one and in no round the edge shaves text off one |
| `MarkdownBlocks.ScannedDocument` | src/groundgraph/application/ingestion/chunker.py:53-199 | from body to chunks, for the same documents: all visible text is kept exactly when no round of any section loses text at the edge, blocks are whole exactly under the condition above, and whole blocks imply kept text |
| `MarkdownBlocks.HeadingTearsCodeBlock` | src/groundgraph/application/ingestion/parsers.py:108-113 | a code block with a heading-like line in it is torn, although every section of the document fits into one chunk |
| `MarkdownBlocks.RoomyDocument` | src/groundgraph/application/ingestion/chunker.py:130-199 | to be checked beforehand: where in every section that exceeds one chunk blocks of different categories share no line and all are shorter than the budget and end before the section does, nothing visible is lost, and blocks are whole exactly if no section begins inside one |
| `MarkdownBlocks.ListInCodeIsLost` | src/groundgraph/application/ingestion/chunker.py:130-199 | a whole family of documents: a list item in a code block, with enough text behind it, always loses all of the block from the item on |
| `EditDistance.Levenshtein` | src/groundgraph/application/extraction/entity_resolver.py:96-107 | the two-row tabulation with swapped arguments returns the length of a shortest edit script |
| `EditDistance.DistanceIsShortest` | src/groundgraph/application/extraction/entity_resolver.py:96-107 | a script of that length exists and none is shorter |
| `EditDistance.Symmetric` | src/groundgraph/application/extraction/entity_resolver.py:97-98 | the distance is symmetric, which makes the swap sound |
| `EditDistance.ZeroIffEqual` | src/groundgraph/application/extraction/entity_resolver.py:96-107 | it is zero exactly between equal strings |
| `EditDistance.Triangle` | src/groundgraph/application/extraction/entity_resolver.py:96-107 | it satisfies the triangle inequality |
| `EditDistance.Bounds` | src/groundgraph/application/extraction/entity_resolver.py:96-107 | it lies between the difference of the lengths and the longer length |
| `EntityResolver.StringSimilarity` | src/groundgraph/application/extraction/entity_resolver.py:83-94 | equal, contained, or one minus the distance over the longer length; at most 1, and 1 exactly on case variants |
| `EntityResolver.SimilaritySymmetric` | src/groundgraph/application/extraction/entity_resolver.py:83-94 | similarity is symmetric |
| `EntityResolver.SimilarityOne` | src/groundgraph/application/extraction/entity_resolver.py:83-94 | it is at most 1, and 1 exactly on case variants |
| `EntityResolver.FindCandidates` | src/groundgraph/application/extraction/entity_resolver.py:66-81 | the scored entities and aliases at or above the minimum |
| `EntityResolver.CandidatesExactly` | src/groundgraph/application/extraction/entity_resolver.py:66-81 | the candidates are exactly the entities listed, with each score at or above the minimum that their name or an alias has |
| `EntityResolver.EntityResolutionService.Resolve` | src/groundgraph/application/extraction/entity_resolver.py:42-64 | found, left for review, or new, by the best candidate; only the last writes |
| `EntityResolver.ResolveAll` | src/groundgraph/application/extraction/entity_resolver.py:42-118 | what a whole history of calls on one service leaves behind is the replay of the calls, about which the lemmas below speak |
| `EntityResolver.HistoriesAreSeparated` | src/groundgraph/application/extraction/entity_resolver.py:42-118 | after any history of calls from an empty store, different entities of a type are less similar than the bound, while the type has at most one entity more than a query returns |
| `EntityResolver.VariantsAreRecognised` | src/groundgraph/application/extraction/entity_resolver.py:51-59 | in such a store a case variant of a name resolves to its own entity exactly when the match threshold is at most 1 |
| `EntityResolver.RecognitionIsStable` | src/groundgraph/application/extraction/entity_resolver.py:42-64 | and it still does after any further calls |
| `EntityResolver.PastTheLimitNamesRepeat` | src/groundgraph/infrastructure/neo4j/repository.py:28-34 | past the limit of the query, any entity can be left out of the answer, and its own name then creates a second entity as similar to it as can be |
| `EntityResolver.SeparationLastsIff` | src/groundgraph/application/extraction/entity_resolver.py:42-118 | after any history that left a type separated, every further call with any admissible answer keeps it so exactly if the type has at most 100 entities, or nothing is written, or both thresholds exceed 1 |
| `EntityResolver.PastTheLimitIsReached` | src/groundgraph/application/extraction/entity_resolver.py:42-118 | there is such a history past the limit: 101 calls with different one-letter names, after which the type is separated and does not stay so |
| `Traversal.ValidTimesAreAnInterval` | src/groundgraph/application/retrieval/graph_fusion.py:200-205 | the times at which a fact is valid form an interval from its start up to but not into its end, open where they are missing, and empty exactly if it ends no later than it starts |
| `Traversal.Traverse` | src/groundgraph/application/retrieval/graph_fusion.py:120-198 | the queue loop returns the search with a cap of 50 results, about which the lemmas below say what is found, in which order and along which walks |
| `Traversal.RoundShrinks` | src/groundgraph/application/retrieval/graph_fusion.py:134-198 | every round decreases unseen keys plus queue length, so the search ends on cyclic graphs |
| `Traversal.HopsAreSelected` | src/groundgraph/application/retrieval/graph_fusion.py:142-181 | every fact followed passed status, predicate, tenant and access filters and touches the entity |
| `Traversal.ResultsAreWalks` | src/groundgraph/application/retrieval/graph_fusion.py:149-196 | each result is the end of a walk of accepted facts whose length is its depth, nearest first, no entity and fact twice |
| `Traversal.PathsAreAccepted` | src/groundgraph/application/retrieval/graph_fusion.py:149-196 | every fact on every path passed the filters, the temporal one included |
| `Traversal.WalksAreFound` | src/groundgraph/application/retrieval/graph_fusion.py:134-196 | an exhausted search finds the last step of every walk that is not too long, no deeper than the walk |
| `Traversal.NearestWalksFirst` | src/groundgraph/application/retrieval/graph_fusion.py:134-196 | below the cap, the first occurrence of a fact carries a shortest walk to it |
| `Traversal.ReachableFactsAreReturned` | src/groundgraph/application/retrieval/graph_fusion.py:134-198 | below the cap, the facts returned are exactly those at the end of a walk of at most the depth |
| `Traversal.EveryHopIsFollowed` | src/groundgraph/application/retrieval/graph_fusion.py:150-152 | when edges agree with facts, the check for seen keys skips no step |
| `Traversal.AtMostTwice` | src/groundgraph/application/retrieval/graph_fusion.py:150-155 | no fact is returned more than twice per seed |
| `Traversal.CapCutsAPrefix` | src/groundgraph/application/retrieval/graph_fusion.py:134 | a smaller cap gives a prefix of what a larger one gives, and is overshot by fewer than 200 results |
| `Traversal.RetrieveEvidence` | src/groundgraph/application/retrieval/graph_fusion.py:69-118 | the evidence of the first occurrence of each fact, seed after seed |
| `Traversal.EachFactOnce` | src/groundgraph/application/retrieval/graph_fusion.py:86-93 | no fact gives two pieces of evidence, whichever seeds it is found from |
| `Traversal.FirstOccurrenceIsKept` | src/groundgraph/application/retrieval/graph_fusion.py:86-115 | every fact found gives the evidence of its first occurrence |
| `Traversal.ProjectedIsTidy` | src/groundgraph/infrastructure/neo4j/repository.py:237-280 | what consistent events leave in the graph, in whatever order and however often projected, gives rows whose edges agree with their facts |
| `Traversal.FactsAreMatched` | src/groundgraph/infrastructure/neo4j/repository.py:36-58 | after two passes over consistent events, a fact is a row of the fact query exactly if both its ends are known entities |
| `Ingestion.WriteKeepsValid` | src/groundgraph/infrastructure/postgres/document_repository.py:105-177 | an upsert from any reads keeps: one version per checksum, one current version named by the row, right checkpoints, chunks and event once per version |
| `Ingestion.WriteHistory` | src/groundgraph/infrastructure/postgres/document_repository.py:105-177 | it appends its checksum to the history of its own locator and makes it current, and touches no other |
| `Ingestion.NewIffUnseen` | src/groundgraph/infrastructure/postgres/document_repository.py:176-177 | a call is told of a new version exactly when the checksum was never stored for the locator |
| `Ingestion.RevertReusesVersion` | src/groundgraph/infrastructure/postgres/document_repository.py:133-162 | going back to an earlier content brings its version back and adds no version, chunk or event |
| `Ingestion.DeleteKeepsValid` | src/groundgraph/infrastructure/postgres/document_repository.py:268-278 | deleting keeps all this |
| `Ingestion.DeleteHistory` | src/groundgraph/infrastructure/postgres/document_repository.py:268-278 | and leaves a history with nothing in force |
| `Ingestion.GetDocumentIsCurrent` | src/groundgraph/infrastructure/postgres/document_repository.py:183-193 | a document read in two statements gives the checksum in force at one of them |
| `Ingestion.ResumedSawTheContent` | src/groundgraph/application/ingestion/services.py:159-177 | however stale its reads, a call that resumes saw its content in force at one of them |
| `Ingestion.RepeatedSawTheContent` | src/groundgraph/application/ingestion/services.py:179-204 | so did a call that repeats an unchanged content |
| `Ingestion.RepeatedIsIdle` | src/groundgraph/application/ingestion/services.py:192-199 | the checkpoint that such a call writes is there already |
| `Ingestion.FreshReadsDecide` | src/groundgraph/application/ingestion/services.py:159-204 | without interference a call resumes exactly when its content is in force, and the second check never fires |
| `IngestionRuns.EveryStateIsValid` | src/groundgraph/application/ingestion/services.py:158-287 | every state of every run of concurrent calls, deletions and source changes is valid, and later states extend earlier ones |
| `IngestionRuns.EachIngestTakesEffect` | src/groundgraph/application/ingestion/services.py:158-287 | every call takes effect at one instant between its first read and its end, or fails and changes nothing |
| `IngestionRuns.SequentialRunsAreHistories` | src/groundgraph/application/ingestion/services.py:158-287 | one call at a time refines the history: the versions are the distinct checksums ingested, the one in force is the last, also after going back |
| `IngestionService.Tables.GetDocument` | src/groundgraph/infrastructure/postgres/document_repository.py:183-193 | the checksum of the current version, or of the one marked current |
| `IngestionService.Tables.UpsertDocument` | src/groundgraph/infrastructure/postgres/document_repository.py:105-177 | inserts the document and its version, or makes the stored version with this checksum current |
| `IngestionService.Tables.DeleteDocument` | src/groundgraph/infrastructure/postgres/document_repository.py:268-278 | leaves the document without a current version |
| `IngestionService.IngestionService.IngestFile` | src/groundgraph/application/ingestion/services.py:143-287 | the decision tree: errors change nothing, and otherwise the reported version holds the content and is in force |
| `IngestionService.IngestionService.StoreParsed` | src/groundgraph/application/ingestion/services.py:240-266 | the chunks of a new version in order, and one event |
| `Fusion.ReciprocalRankFusion` | src/groundgraph/application/retrieval/fusion.py:30-93 | the loops return the fused ranking: each identifier once, highest score first |
| `Fusion.FusionIsComplete` | src/groundgraph/application/retrieval/fusion.py:30-93 | each identifier of either ranking is there, with the sum of 1/(k + rank) over its positions, highest first |
| `Fusion.FusionHasNoRepeats` | src/groundgraph/application/retrieval/fusion.py:40-72 | no identifier comes twice |
| `Fusion.FieldsComeFromChunks` | src/groundgraph/application/retrieval/fusion.py:42-72 | an item is described by the first chunk with its identifier and carries the last scores |
| `Fusion.DominanceIsRespected` | src/groundgraph/application/retrieval/fusion.py:30-93 | in rankings without repeats, an item ranked before another wherever the other is ranked precedes it in the result |
| `StableSort.SortOrders` | src/groundgraph/application/retrieval/fusion.py:74-78 | sorting in descending order puts a higher score first, and of equal scores the earlier one |
| `StableSort.SortPermutes` | src/groundgraph/application/retrieval/fusion.py:74-78 | sorting only reorders |
| `HybridFusion.HybridRrfFusion` | src/groundgraph/application/retrieval/graph_fusion.py:248-345 | raises exactly over mixed identifiers, or else over a leading fact whose merged validity is empty, and otherwise returns one piece of evidence for each item kept, in order |
| `HybridFusion.MixedIdentifiersRaise` | src/groundgraph/application/retrieval/graph_fusion.py:226 | the fusion raises over mixed identifiers exactly when graph evidence shares its identifier with a chunk |
| `HybridFusion.FinalScores` | src/groundgraph/application/retrieval/graph_fusion.py:260-316 | an identifier scores the sum over its ranks, those of graph evidence weighted by one and a half |
| `HybridFusion.OneBestPerSource` | src/groundgraph/application/retrieval/graph_fusion.py:318-343 | exactly one item per source is kept, none of its source scores more, highest first |
| `HybridFusion.WithoutGraphItIsTwoWayFusion` | src/groundgraph/application/retrieval/graph_fusion.py:258-345 | without graph evidence, the result is the two-way fusion filtered to the first item per source |
| `HybridFusion.GraphBoardIs` | src/groundgraph/application/retrieval/graph_fusion.py:218-237 | repeated graph evidence adds its scores, joins its paths, and takes the earliest start and the latest end of validity |
| `HybridFusion.UnrepeatedEvidenceIsKept` | src/groundgraph/application/retrieval/graph_fusion.py:296-343 | without repeats, a piece of graph evidence is returned with its own path, validity, content and principals, exactly if nothing of its source outranks it |
| `HybridFusion.MergingCanEmptyValidity` | src/groundgraph/application/retrieval/graph_fusion.py:230-237 | two pieces of which neither is empty can be merged to an empty validity, and then the fusion raises |
| `HybridFusion.EmptyValidityRaises` | src/groundgraph/application/retrieval/graph_fusion.py:218-345 | over unmixed identifiers the fusion raises exactly when of some graph identifier all ends of validity come no later than all starts, some of each given, and no identifier of its source has a higher score, or the same score and an earlier first appearance |
| `HybridFusion.KeptLead` | src/groundgraph/application/retrieval/graph_fusion.py:318-343 | the items kept are exactly those that no identifier of their source outranks, by the scores and first appearances in the inputs |
| `HybridFusion.UnrepeatedNeverRaises` | src/groundgraph/application/retrieval/graph_fusion.py:296-343 | unrepeated evidence of which no piece is empty never makes the fusion raise over validity |
| `Answering.BuildResponse` | src/groundgraph/infrastructure/openai/answer_generator.py:180-277 | returns a legal response or raises; claims the domain model refuses are skipped, and support without evidence is withdrawn |
| `Answering.AnsweredIsGrounded` | src/groundgraph/infrastructure/openai/answer_generator.py:180-277 | building raises exactly for an answer that is not empty but white space; otherwise the response is legal, and answered exactly if the model answers and supports some claim with known evidence |
| `Answering.Validate` | src/groundgraph/application/answering/claim_validator.py:26-57 | returns a legal response when given one: claims checked against the evidence, citations regrouped by claim, unsupported claims counted |
| `Answering.CheckedIsGrounded` | src/groundgraph/application/answering/claim_validator.py:59-101 | a checked claim keeps the known part of its evidence, and is fully supported only if all of it is known, unsupported exactly if none is |
| `Answering.CheckingTwice` | src/groundgraph/application/answering/claim_validator.py:59-101 | checking again changes no claim |
| `Answering.ValidatedIsGrounded` | src/groundgraph/application/answering/claim_validator.py:26-57 | a validated response is legal and its claims cite known evidence only |
| `Answering.ValidatedCitations` | src/groundgraph/application/answering/claim_validator.py:40-44 | the citations that survive are exactly those of a claim of the response to known evidence |
| `Answering.ValidatingBuiltIsIdentity` | src/groundgraph/application/answering/claim_validator.py:34-57 | validating what was built against the same evidence changes neither claims nor citations |
| `QueryWorkflow.InvokeIsDecisive` | src/groundgraph/workflows/query_graph.py:121-186 | the workflow returns what the first attempt not worth repeating is worth, or the last one allowed; nothing of an earlier attempt gets into the result |
| `QueryWorkflow.RetriesAreBounded` | src/groundgraph/workflows/query_graph.py:159-186 | at most max_retries + 1 executions, ending answered, asking back, or failed |
| `QueryWorkflow.AnswersAreGrounded` | src/groundgraph/workflows/query_graph.py:134-171 | an answer is that of the last attempt, its claims cite its evidence only, and no factual claim is unsupported |
| `QueryWorkflow.BuiltAnswersPass` | src/groundgraph/workflows/query_graph.py:134-154 | a built answer passes unchanged if its factual claims are supported, and is withdrawn otherwise |
| `JsonValue.Validator.Validate` | src/groundgraph/domain/types.py:31-68 | the recursive copy; the shared set of enclosing containers is as before however the call ends |
| `JsonValue.ValidIffAcyclicAndLegal` | src/groundgraph/domain/types.py:31-68 | it succeeds exactly when no cycle can be reached and every leaf and key is legal |
| `JsonValue.CopiedIffUnfolds` | src/groundgraph/domain/types.py:31-68 | it returns a tree exactly when the value unfolds to that tree, so sharing is accepted |
| `JsonValue.UnfoldingIsUnique` | src/groundgraph/domain/types.py:31-68 | a value unfolds to one tree at most |
| `JsonValue.ValidatingAgain` | src/groundgraph/domain/types.py:16-28 | validating a copy, wherever it is stored, gives the same tree |
| `ExecutionStore.ExecutionRepository.UpdateRunStatus` | src/groundgraph/infrastructure/postgres/execution_store.py:82-131 | the compare-and-set with all its errors in order; code, message, finishing time and the copied output are stored together with the status |
| `ExecutionStore.TakeSnapshot` | src/groundgraph/infrastructure/postgres/json_utils.py:10-15 | an output is stored exactly if it unfolds to an object, and as that object |
| `ExecutionStore.RunsOnlyAdvance` | src/groundgraph/domain/execution.py:45-55 | whoever calls in whatever order, a run changes at most twice and never after it is terminal, and then has the time it finished; its output stays an object |
| `ExecutionStore.OneWinnerPerStatus` | src/groundgraph/infrastructure/postgres/execution_store.py:111-127 | of all calls that expect one status of one run, in any sequence of calls, at most one is accepted |

## Left out

- Database drivers, sessions, object storage, model calls, embedding, reranking, telemetry and logging: input and output.
- Hashing: checksums are taken to be injective; configuration hashes and chunk checksums are not computed.
- Floating point: scores are exact reals, and the retry delay is an integer power that never overflows.
- Line breaks other than a line feed, and Unicode white space and digits, which `splitlines` and `strip` also recognise; `lower` is any function on strings.
- The parsers for PDF, DOCX, EPUB and HTML, front matter, and the regular expressions that find headings.
- EntityResolver.EntityResolutionService.Resolve: does not model a service without repository, which creates an entity on every call.
- OutboxProtocol.RunKeepsInv: does not model other writers of the graph, such as the entity resolver, whose new entities are nodes that no commit projects.
- Outbox rows added in a status other than pending, which only their producer could store.
- Crashes in the middle of a batch appear as the loss of each claim; polling intervals and shutdown do not.
- Traversal.Traverse: does not model the entity names and the text of the evidence, nor the staleness score in it, which depends on the wall clock.
- The order of the merged path of repeated graph evidence, which the code takes from a set.
- Fusion.ReciprocalRankFusion: does not model a negative `k`, with which the division can fail; no caller passes one.
- Ingestion.WriteKeepsValid: does not model the title and metadata of versions, and takes the parser's result and the chunker as given.
- Path safety checks, file sizes and the object written before the transaction, which a rolled-back call leaves behind.
- The ingestion quality report: counters over the stored chunks.
- Identifiers of citations and responses, and the graph runtime's own limit on steps.
- Execution steps: the same compare-and-set over a table of the same shape.
- JsonValue.Validator.Validate: does not model the interpreter's recursion limit on deep nesting.
- The older outbox consumer without tokens or leases, the operator interface, authentication and settings.
