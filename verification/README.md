# Verified model of the indexing and export pipeline

An EVM indexer pulls logs from a node in block windows, stores them per source, discovers new
contracts through factory sources, and hands the stored logs to exporter plugins one at a time.
Every step can fail and be replayed. This project models that pipeline, the tables of factory
rules and sources it works on, and the code around it, and proves what users rely on:

- **Nothing is lost, whatever fails.** `Pipeline` is a step system with a possible crash between any
  two effects: window fetched, rows written, each (log, rule) pair handled, cursor moved in memory,
  cursor saved, exporter range planned, sources read, log taken by the plugin, log refused by it,
  cursor persisted. Delivered means that the plugin took the log without an error.
  `PipelineInvariant` and `DeliveryInvariant` give the invariants of one step, `PipelineSafety` what
  follows for every run, with any number of sources, factories of factories, and any interleaving.
  `Lineage` says what a discovered source carries and that contracts declared under nested rules are
  followed through any number of factories; `Sessions` that deliveries come in order and that the saved
  cursor only moves forward; `Restarts` that each restart delivers anew what lies behind the cursor it
  begins with, so that a refused log is given again and taken before the cursor passes it. `SmallWorld`,
  `HalfCopied` and `RivalRules` are runs that show where the code falls short.
- **The code takes only those steps.** `Indexer.Service` and `Exporter.Service` are the imperative
  code. Their methods take an arbitrary set of pipeline states that no step leaves and end in it
  whenever they begin in it, on every error path. Between their effects the rest of the system moves
  as it likes. For a worker it is an arbitrary function of what is shared and of what the worker's own
  source is like, applied at every turn: every step of the others is allowed, the exporter planning a
  range included, and a function may do anything that is allowed in each situation
  (`Indexer.OthersStep`, `Indexer.AnyStepIsTaken`, `Indexer.SchedulesAreRespectful`). For the exporter it
  is an arbitrary sequence of worlds, and every step of a worker leads from one to the next
  (`Exporter.WorkerStepDrifts`). `PipelineSafety.CodeStaysInRuns` takes the set of states that runs
  reach, so every theorem about runs is about the code. Two things are taken to
  happen in one moment: looking a child up and creating it with its rules, and reading the store for
  one query.
- **Trees in flat tables.** `RuleTables` gives rule rows their meaning as a forest; `RuleStore` is the
  recursive code that creates, loads, deletes, replaces and clones them; `SpawnedRules` ties the tables
  to the sources of the pipeline; `SourceTree` is the
  breadth-first walk over sources and the cascading delete; `Autoloader` and `ConfigExport` turn
  named configuration into rows and back, and `ConfigNormalForm` says for which configurations that is
  the identity.
  `LoadedRows` says that what has been loaded is where runs of the pipeline begin.
- **Self-contained parts.** `ParquetStore` and `StoreLaws` (files replayed by overwriting),
  `Pagination` and `SearchStore` (the search engine, page by page and against the file store),
  `Positions` (cursor encoding), `Windows`, `Batching`, `Fanout`, `TtlCache`, `Routing`, `TopicCodec` and
  `TopicTypes`.

`Numerals`, `Texts`, `Sequences`, `Chain`, `Rules` and `Metadata` hold the shared vocabulary.

## Findings

Where the code does not do what its comments or documentation say, the model follows the code and
a lemma says exactly when the two agree.

- `StartBlock` is documented as the first block an exporter processes
  (internal/database/evmi-database/models.go:287). That holds if and only if the row's cursor begins
  below it. Autoloaded exporters begin at `StartBlock` itself and skip that block
  (`Positions.StartBlockIsExported`).
- A restart while the row is below `StartBlock` replays that block instead of resuming in it
  (`Positions.ResumeIsExact`); from the start block on at most one delivered position is ahead of the
  cursor (`PipelineSafety.AtMostOneAhead`) and the cursor never goes back
  (`Sessions.SavedCursorNeverGoesBack`).
- Two sources may hold the same log. The cursor cannot tell the copies apart, so a restart between
  them passes over the second copy (`Exporter.RestartResumes`). Delivery is therefore stated by
  position; a row whose position no other owed row shares is itself delivered
  (`PipelineSafety.UnsharedRowsAreDelivered`). For the same reason a log that the plugin refused is given
  again unless the saved cursor stands at its position already (`Restarts.RefusedLogsAreTakenLater`).
- When cloning a factory rule's nested rules stops half-way, the child source keeps what was copied for
  ever: the retry sees the row and returns. All children of a run have all their rules if and only if
  no step of it stopped copying (`Lineage.ChildrenAreWholeIffNoCopyStopped`); `HalfCopied` is a run in
  which the factory's cursor passes the deployment and the child lacks its rule.
- Two rules of one factory may fire for the same contract, and then only the first makes its source: the
  first log in position order and, for that log, the first rule. So the source of a contract is what a
  rule asks for if and only if the first rule to fire for it asks for the same
  (`Lineage.IsAsAskedIffFirstRuleIs`); `RivalRules` is a run in which a contract that a rule declares a
  factory is followed as a plain contract, because the rule before it does not. A path of deployments is
  followed when the rules that fire for a contract up to its deployment agree; what fires later does not
  matter (`Lineage.DeclaredContractsAreFollowed`).
- The search engine keeps a document under the id of its log, which does not name the source
  (internal/indexer/indexer.go:812), although its sort expects the same position from several sources
  (internal/database/log-stores/elasticsearch/store.go:451). When two sources write the same log it is
  kept for the later one only (`SearchStore.FoundExactly`, `SearchStore.SharedLogIsKeptOnce`); otherwise
  both stores answer alike (`SearchStore.StoresAgree`).
- Loading a configuration is idempotent if and only if no contract or factory entry without an
  address, and no topic entry without a topic, gets as far as being created
  (`Autoloader.LoadIsIdempotent`).
- A configuration survives loading and exporting unchanged if and only if it is complete: unique names
  that are not empty, references that resolve, upper-case types, child types written out, a blockchain
  written out, and no two sources with the same key (`ConfigNormalForm.LoadThenExportIsExact`). Two topic
  sources with one topic but different filters are taken for one.
- A merged stream that returns nil after the client gave up may have sent nothing
  (`Fanout.NilAfterCancellationCanBeEmpty`), and so may one whose backend broke off
  (`Fanout.NilAfterBreakCanBeEmpty`).
- A lookup in flight while its key is invalidated puts the old value back
  (`TtlCache.InvalidationHolds`). Invalidating an instance leaves the pipeline-to-instance hop cached:
  while that is fresh the route is right if and only if the pipeline has not moved
  (`Routing.RouteAfterInvalidation`, with `Routing.MovedPipelineGoesToOldInstance` as a case where it
  has).
- The round-robin index does not exist for most counters from 2^63 on: `Routing.PickedExactly` and
  `Routing.EveryAddressGetsItsTurn` say exactly when an address is picked and when all take turns, which
  calls that carry the counter across 2^64 never do (`Routing.PicksAcross`), and
  `Routing.NothingPickedAtTwo63` is a case of none.
- Integers below -2^256 or from 2^256 on are encoded as text that is no topic
  (`TopicCodec.IntegersEncodeAsResidues`), and a saved negative number is shown as its residue
  (`TopicCodec.IntegersShowAsResidues`). Editing one filter rewrites another unless that one is a wildcard
  or a canonical topic of its type (`TopicCodec.EditChangesOnePosition`).
- The transaction index stored with a transaction is its place among the distinct hashes of the
  window; `Batching.TxIndexIsExact` says when that is its index in the block, and
  `Batching.SecondTransactionIsStoredAsFirst` is a case where it is not.

## Assumptions

- The chain is immutable and a node answers a filtered range query with exactly the matching logs.
- One live worker per source and one per exporter; sources are not disabled or edited during a run;
  sources are added only by factories.
- A rule's child type is CONTRACT or FACTORY (or not set). The code does not check it; with another type
  the child would ask for other logs or its worker would stop.
- Sums of block numbers with the window size or the batch size do not wrap.
- `BlockRange` is at least 1 for the window loop and `RpcMaxBatchSize` at least 1 for the transaction
  loop. `Windows.WindowsMustNotBeEmpty` and `Batching.LimitMustNotBeZero` say that these are needed.
- Ids are handed out in increasing order and queries without an order return rows in id order, except
  in `SourceTree`, where any order is allowed.
- White space and letter case are those of ASCII; addresses are compared in their canonical spelling.
- A library sort gives some sorted arrangement of its input.

## Model

| member | source | states |
|---|---|---|
| PipelineSafety.NothingIsLost | internal/exporter/exporter.go:215-263 | in every run, with any failures, crashes and restarts, every log some source is responsible for and that lies behind the exporter's saved cursor has been taken by the plugin without an error |
| Restarts.EachRestartDelivers | internal/exporter/exporter.go:156-263 | from any state in which the exporter stands still, whatever was delivered before, every log behind the bound a restart begins with and up to the one that a later restart would begin with is taken in between |
| Restarts.RefusedLogsAreTakenLater | internal/exporter/exporter.go:208-232 | a log for which the plugin gave an error is given again and taken before the cursor passes it, unless the saved cursor stood at its position already |
| Restarts.RebasedStep | internal/exporter/exporter.go:156-263 | every step of the system is also a step with an exporter created anew with the saved row |
| Restarts.WorkersGoOnBehindTheirRow | internal/indexer/indexer.go:401-404 | after the process has ended a worker goes on behind the cursor saved in its row, after a failure of its own behind the one in memory, and never below its start block |
| PipelineSafety.CursorNeverOvertakes | internal/exporter/exporter.go:285-310 | in every run the saved exporter cursor never passes the cursor of any source, children included |
| PipelineSafety.DeployedContractsAreFollowed | internal/indexer/indexer.go:175-225 | once a rule that a factory holds recognises a deployment, every later log of that contract is delivered before the exporter's cursor passes it |
| PipelineSafety.DeployedContractsAreFollowedByRule | internal/indexer/indexer.go:227-267 | the same spelt out for the rule's event, conditions and address argument |
| Lineage.OneChildPerDeployment | internal/indexer/indexer.go:175-219 | once the factory's cursor has passed a deployment there is exactly one child for that factory and address, it begins before the deployment, it was made by the first log and rule in position and rule order that fire for the address, and it has the ABI, type and start that rule asks for and as many nested rules as were copied |
| Lineage.MakerIsFirst | internal/indexer/indexer.go:227-267 | the log and rule that made a child are the first, in position order and then in the order of the rules, that ever fire for its address |
| Lineage.IsAsAskedIffFirstRuleIs | internal/indexer/indexer.go:181-219 | when copying did not stop at it, the child of a passed deployment has the ABI, type and nested rules that a rule asks for if and only if the first rule to fire asks for the same |
| Lineage.ChildCarriesItsRules | internal/indexer/indexer.go:191-219 | from its making to the end of the run a child carries what its rule asks for, and all the nested rules if and only if copying was not stopped at that step |
| Lineage.ChildrenAreWholeIffNoCopyStopped | internal/indexer/indexer.go:135-219 | all children of a run have all their nested rules if and only if no step of the run stopped copying |
| Lineage.MadeOnce | internal/indexer/indexer.go:175-189 | a source is made once, by one log and one rule |
| Lineage.DeclaredContractsAreFollowed | internal/indexer/indexer.go:135-267 | when copying did not stop at the sources on the way and the rules that fire up to each deployment agree, every log of a contract at the end of a path of deployments, each declared by a rule nested in the rule before, is delivered before the exporter's cursor passes it |
| Lineage.OnlyDeclaredContractsAreFollowed | internal/indexer/indexer.go:175-267 | every source that the user has not declared is there because a log its factory asks for is of the event of one of the factory's rules, meets each of its conditions and names the contract in its argument; it has the ABI and type of that rule |
| HalfCopied.RetryPassesOverTheChild | internal/indexer/indexer.go:181-219 | a run, with the real trigger and a decoded log, in which the factory's cursor passes a deployment although its child lacks the nested rule |
| RivalRules.FirstRuleDecides | internal/indexer/indexer.go:175-267 | a run in which a rule declares a contract to be a factory with a nested rule and fires for it, nothing fails, and the contract becomes a plain source without rules because the rule before fires for the same log |
| PipelineSafety.OnlyOwedRowsAreDelivered | internal/exporter/exporter.go:215-263 | every row the plugin was ever given, refused ones included, is a log its source is responsible for, behind the start bound and in blocks every source has passed |
| PipelineSafety.UnsharedRowsAreDelivered | internal/exporter/exporter.go:215-263 | a row whose position no other owed row shares is itself delivered |
| Sessions.DeliveryIsInOrder | internal/exporter/exporter.go:215-222 | from a state in which the exporter is idle or stopped, and until it is started anew, everything the plugin is given comes in block and log index order, no row twice, and nothing comes after the first row it refuses |
| Sessions.SavedCursorNeverGoesBack | internal/exporter/exporter.go:149-162 | from the start block on the saved exporter cursor never goes back |
| PipelineSafety.StoreMatchesCursor | internal/indexer/indexer.go:449-529 | in every run, reading a source's directory gives each of its logs up to its saved cursor exactly once, none below its origin and none beyond the highest head seen |
| PipelineSafety.AtMostOneAhead | internal/exporter/exporter.go:149-155 | while restarts resume from the saved cursor itself, the rows the plugin was given and the cursor does not cover, refused ones included, have one position |
| PipelineSafety.CursorsNeverGoBack | internal/indexer/indexer.go:513-518 | along every run saved source cursors never decrease and no source disappears |
| PipelineSafety.CodeStaysInRuns | internal/exporter/exporter.go:156-263 | the states that runs end in are closed under every step and satisfy the invariant, so code that stays in closed sets stays in runs |
| Pipeline.ReachableIsClosed | internal/indexer/indexer.go:394-529 | the states that runs end in are closed under every step |
| PipelineInvariant.SourceStepKeeps | internal/indexer/indexer.go:394-529 | every step of a worker keeps what is stored, the bounds of its cursor in memory and in its row, and its window |
| PipelineInvariant.PairStepKeeps | internal/indexer/indexer.go:181-267 | handling one (log, rule) pair keeps the family invariants: one child per address, children below the first deployment, every past deployment found |
| DeliveryInvariant.StepKeeps | internal/exporter/exporter.go:156-325 | every step of the whole system keeps the invariant from which delivery follows |
| DeliveryInvariant.InvariantHolds | internal/exporter/exporter.go:156-325 | the invariant holds at the end of every run |
| Exporter.Service.Round | internal/exporter/exporter.go:175-211 | one turn of the main loop: when it waits, how far it goes, that the plugin takes exactly the logs that the enabled sources hold behind the cursor, each once and in order, or on failure which prefix of them and which log it refuses, what is saved, and that it only takes steps of the pipeline while the workers move |
| Exporter.Service.ExportRange | internal/exporter/exporter.go:215-263 | the plugin takes the logs before the first fault, in order, and is given the one after them only if that is the one it refuses; the saved cursor stands at the last log whose write succeeded, or at the end of the range if there is no fault; and the code only takes steps of the pipeline, whatever the workers do between its effects |
| Exporter.EndsOnce | internal/exporter/exporter.go:229-262 | the faults decide which way a range ends and how many logs have been taken then |
| Exporter.Service.DeliverOne | internal/exporter/exporter.go:229-247 | one log: refused, taken without its cursor saved, or taken and saved, with the whole new state |
| Exporter.WorkerStepDrifts | internal/exporter/exporter.go:170-211 | every step of a worker is a move that the exporter's methods allow for |
| Exporter.Service.Start | internal/exporter/exporter.go:157-162 | the cursor a starting exporter goes on from |
| Exporter.SourcesAndHead | internal/exporter/exporter.go:285-310 | exactly the enabled sources of the pipeline, each once, and the lowest of their cursors |
| Exporter.BatchOfRange | internal/exporter/exporter.go:164-167 | an exporter goes 1000 blocks at a time where the chain names no range |
| Exporter.Service.PersistCursor | internal/exporter/exporter.go:312-325 | the row changes exactly when the write succeeds |
| Exporter.RestartResumes | internal/exporter/exporter.go:274-283 | after a restart exactly the logs not yet delivered are asked for, if and only if the last delivered one shares its position with none of them |
| Positions.BoundUndoesDelivery | internal/exporter/exporter.go:240-283 | resuming after a delivered log comes back to that log if and only if its block is not 0 and its index fits an int64 (one degenerate position aside) |
| Positions.BoundWhenDeliveryIsNotUndone | internal/exporter/exporter.go:265-283 | what happens instead: the previous block is replayed, or part of block 1 is passed over |
| Positions.BoundEmbedsCursorOrder | internal/exporter/exporter.go:274-283 | the bound embeds the order of cursors into the order of positions, both ways |
| Positions.BlockZeroIsNeverAskedFor | internal/exporter/exporter.go:265-272 | no query of the exporter reaches the genesis branch |
| Positions.CursorStrictlyIncreases | internal/exporter/exporter.go:240-262 | persisting after any log asked for, and after a range, moves the cursor strictly forward |
| Positions.ResumeIsExact | internal/exporter/exporter.go:157-162 | a restart resumes exactly at the row's cursor if and only if the row is not below the start block, or stands right at the end of the block before it |
| Positions.ResumeNeverSkips | internal/exporter/exporter.go:157-162 | the clamp can only go back, never skip, once the row has come within one block of the start block |
| Positions.StartBlockIsExported | internal/database/evmi-database/models.go:286-288 | the start block itself is exported if and only if the initial row lies below it |
| Indexer.Service.ServeIndexation | internal/indexer/indexer.go:394-446 | over any sequence of heads, what has been written to the source's files are exactly windows that follow each other without gap or overlap, from the block after the cursor to the last head acted on, none longer than the configured size |
| Indexer.Service.Poll | internal/indexer/indexer.go:408-445 | one head: nothing when it is too near, else exactly the windows that tile the blocks up to it are written and the cursor is at their end |
| Indexer.Service.IndexRange | internal/indexer/indexer.go:449-529 | one window: store, register children, then move the cursor; a failure anywhere leaves the cursor in the row as it was |
| Indexer.Service.OthersMove | internal/indexer/indexer.go:394-529 | between two effects the others may change everything but this source, within the states of the set |
| Indexer.OthersStep | internal/indexer/indexer.go:394-529 | every step of another worker or of the exporter is something the others may do |
| Indexer.AnyStepIsTaken | internal/indexer/indexer.go:394-529 | each such step is taken by some behaviour of the others that the methods allow for |
| Indexer.SchedulesAreRespectful | internal/indexer/indexer.go:394-529 | an allowed behaviour stays allowed with anything allowed put in its place in one situation |
| Indexer.AllowedTwice | internal/indexer/indexer.go:394-529 | what the others may do in two steps they may do in one turn |
| Indexer.Service.RegisterFactoryChildren | internal/indexer/indexer.go:227-267 | every deployment that a rule recognises in the window has its child when the call succeeds, and sources are only added |
| Indexer.Service.RegisterFactoryChild | internal/indexer/indexer.go:175-225 | a child is created exactly when the factory has none at the address, with the block before the deployment as its cursor and the nested rules of its rule, or the first of them when copying stops |
| Windows.TilesOnce | internal/indexer/indexer.go:430-443 | in a tiling every block lies in exactly one window |
| Windows.WindowsMustNotBeEmpty | internal/indexer/indexer.go:430 | the loop's own update of its position gets past the head after some turns if and only if the window size is not 0 |
| Windows.WindowsTile | internal/indexer/indexer.go:430-443 | the windows the loop cuts tile the blocks up to the head and none is longer than the size |
| Windows.WindowsAreFull | internal/indexer/indexer.go:430-443 | only the last window is shorter than the size |
| Chain.FetchSplits | internal/indexer/indexer.go:473-479 | the answers for consecutive windows concatenate to the answer for the whole range |
| Chain.AllWildcards | internal/indexer/indexer.go:373-387 | without filters the signature and as many further topics are asked for |
| Chain.FilterNarrows | internal/indexer/indexer.go:373-387 | a filter asks for its topic at its own position and changes nothing else |
| Chain.SecondArgument | internal/indexer/indexer.go:373-387 | a filter behind a wildcard names the second argument |
| Chain.LogIdInjective | internal/indexer/indexer.go:812-813 | log ids determine positions |
| Rules.OperatorsDescribeOneComparison | internal/indexer/indexer.go:91-133 | for all values exactly one of eq, lt and gt holds, the other operators are their negations, and swapping the sides swaps the direction |
| Rules.IntegersCompareAsNumbers | internal/indexer/indexer.go:94-112 | each operator on integers of either sign is that comparison of numbers |
| Rules.OtherSpellings | internal/indexer/indexer.go:95-96 | an integer may also have a plus sign and leading zeros |
| Rules.LongerTextsAreGreater | internal/indexer/indexer.go:114-131 | when not both are integers, a text is less than every longer one that begins with it |
| Rules.FirstDifferenceDecides | internal/indexer/indexer.go:114-131 | and otherwise the first character in which they differ decides |
| Rules.CaseIsIgnored | internal/indexer/indexer.go:114-120 | texts that differ in case and surrounding white space are equal |
| Texts.BlanksAreCut | internal/indexer/indexer.go:94-95 | blanks, tabs and ends of lines around a value do not matter |
| Texts.CasesAgree | internal/indexer/indexer.go:114-115 | texts with the same letters in one case have the same in the other |
| Rules.ContainsAsText | internal/indexer/indexer.go:121-122 | contains holds if and only if the text can be cut so that the other is in between |
| Rules.OtherOperatorsFail | internal/indexer/indexer.go:114-133 | no other operator ever holds |
| Rules.ConditionsConjoin | internal/indexer/indexer.go:80-89 | conditions restrict each other, and without any every deployment is seen |
| Rules.ThresholdIsKept | internal/indexer/indexer.go:227-262 | a rule with a threshold on a number fires for exactly the deployments that reach it |
| Rules.UnknownEventsDeployNothing | internal/indexer/indexer.go:596-633 | a log of an event that the source's ABI does not know fires no rule |
| ParquetStore.Store.WriteBatchFile | internal/database/log-stores/parquet/store.go:178-195 | the directory after a write that succeeds, fails, or fails at the rename |
| ParquetStore.Store.InsertLogs | internal/database/log-stores/parquet/store.go:134-154 | a batch is grouped by source into one file each; the first failing file ends the call, which others may have preceded |
| ParquetStore.PutIsAtomic | internal/database/log-stores/parquet/store.go:178-195 | readers see a batch as a whole file once its write is done, and nothing of it before |
| ParquetStore.FileNameInjective | internal/database/log-stores/parquet/store.go:188 | over all uint64 bounds a file name stands for one pair of bounds |
| ParquetStore.Store.ReadSourceLogs | internal/database/log-stores/parquet/store.go:322-343 | all visible rows, first occurrences by id, or an error if and only if a file cannot be read |
| ParquetStore.Store.GetLogsAfter | internal/database/log-stores/parquet/store.go:246-265 | the sorted multiset of the sources' rows strictly after the bound up to the block |
| ParquetStore.SortKeeps | internal/database/log-stores/parquet/store.go:385-392 | sorting arranges by block and log index and keeps every row |
| StoreLaws.OverwriteIsLossless | internal/database/log-stores/parquet/store.go:178-195 | writing a window adds exactly its rows; a taken file name already holds the same rows |
| StoreLaws.ReadReturnsEachOnce | internal/database/log-stores/parquet/store.go:322-343 | reading returns each visible row exactly once, whatever the listing order |
| StoreLaws.FirstIsKept | internal/database/log-stores/parquet/store.go:333-341 | of the rows with one id the first is kept, in its place |
| StoreLaws.ReplayIsLossless | internal/database/log-stores/parquet/store.go:134-195 | after any sequence of re-sliced, failed, interrupted and replayed windows reading returns each matching log of their union exactly once and nothing else |
| StoreLaws.RangesConcatenate | internal/database/log-stores/interface.go:15-19 | sorted selections for two consecutive ranges put together are one for the whole range, and the only one for distinct positions |
| StoreLaws.QueriesConcatenate | internal/database/log-stores/parquet/store.go:246-265 | what the store answers for a range and then with the cursor behind it for a second one is an answer for both at once, and just what the store answers then if no two of the sources hold the same log |
| RuleStore.Store.LoadRulesAt | internal/grpc/sources-handlers.go:457-496 | loading reads the forest that the rows mean |
| RuleStore.Store.CreateFactoryRules | internal/grpc/sources-handlers.go:389-422 | creating inserts the forest below its owner and keeps the tables well formed |
| RuleStore.Store.DeleteRuleSubtree | internal/grpc/sources-handlers.go:437-451 | exactly the rule, everything nested below it and their conditions are removed |
| RuleStore.Store.DeleteFactoryRules | internal/grpc/sources-handlers.go:424-435 | exactly the rules whose chain of parents ends at the source are removed |
| RuleStore.Store.SaveFactoryRules | internal/grpc/sources-handlers.go:382-387 | replacing a forest and loading it gives the new forest |
| RuleStore.Store.CloneFactoryRuleSubtree | internal/indexer/indexer.go:135-173 | the copy equals inserting, at the new owner, what a depth-first walk over the template sees before the database refuses a write, all of it exactly when no write is refused; the recursion ends because no row it inserts becomes a child of a template row |
| RuleStore.Store.CloneOntoChild | internal/indexer/indexer.go:214-219 | a fresh child gets the first rules of the template's forest, all of them exactly when no write is refused, and every other forest stays |
| Rules.FirstRulesAreAll | internal/indexer/indexer.go:141-173 | the walk has seen everything if and only if it was not cut short |
| SpawnedRules.SpawnAgreesWithTables | internal/indexer/indexer.go:191-219 | copying in the tables and spawning in the pipeline agree, for any number of copied rules |
| SpawnedRules.EveryRuleSpawns | internal/indexer/indexer.go:191-219 | every rule that a source of the pipeline holds has a row from which it is copied so |
| RuleTables.LoadAfterInsert | internal/grpc/sources-handlers.go:389-496 | loading after creating gives back the forest, in order, with its nesting and conditions, behind what the owner had |
| RuleTables.SaveThenLoad | internal/grpc/sources-handlers.go:376-387 | save then load is the identity, no row or condition of the replaced forest survives, and every other source keeps its forest |
| RuleTables.CloneIsIsomorphic | internal/indexer/indexer.go:135-173 | the clone equals the template's forest, and the template and all other forests stay |
| RuleTables.InsertKeeps | internal/database/evmi-database/models.go:235-241 | every writer keeps exactly one owner per row and parent ids below own ids |
| RuleTables.InsertTouchesOnlyItsSource | internal/grpc/sources-handlers.go:389-422 | creating rules for one source changes the forest of no other owner |
| RuleTables.RemoveTouchesOnlyItsSource | internal/grpc/sources-handlers.go:424-451 | removing one source's rules leaves every other source's forest |
| SourceTree.Server.CollectSourceSubtree | internal/grpc/sources-handlers.go:105-122 | exactly the root and its descendants, each once, the root first, parents before children and nearer sources before farther ones |
| SourceTree.Server.DeleteEvmLogSource | internal/grpc/sources-handlers.go:56-103 | which of the five outcomes, and for each what is left of rows, rules and stored data |
| SourceTree.DeletionIsClean | internal/grpc/sources-handlers.go:72-97 | after a deletion no source has a deleted parent, no rule of a deleted source is left, and all other sources keep their rules |
| Autoloader.LoadIsIdempotent | internal/autoloader/autoloader.go:1-59 | a second load changes no table, whatever failed the first time, if and only if no entry without its key value gets as far as being created |
| LoadedRows.LoadedExportersBegin | internal/autoloader/autoloader.go:320-335 | every exporter a load creates has the fields of its entry and begins right behind its start block: it asks for exactly the logs of later blocks |
| LoadedRows.LoadedSourcesBegin | internal/autoloader/autoloader.go:218-240 | every source a load creates has the filter of its entry, and the first window of its worker begins one block behind its start block |
| LoadedRows.AskedByKind | internal/indexer/indexer.go:344-371 | which logs an entry asks for, by its kind |
| LoadedRows.WorkersBeginBehindStart | internal/indexer/indexer.go:401-443 | the worker of any row begins behind its start block or its cursor, whichever is later |
| LoadedRows.LoadedIsInitial | internal/autoloader/autoloader.go:21-59 | what a first load makes is a state from which runs of the pipeline begin |
| Autoloader.BaseSettles | internal/autoloader/autoloader.go:61-170 | a second load finds blockchains, ABIs, stores and pipelines as they are, without any condition |
| Autoloader.Database.LoadResources | internal/autoloader/autoloader.go:28-59 | the phases in order, failures passed over |
| Autoloader.Database.EnsureSourceRow | internal/autoloader/autoloader.go:172-249 | one source with its rules; after success a row matches the entry unless its key value is missing |
| Autoloader.Database.EnsurePipelineRow | internal/autoloader/autoloader.go:138-170 | one pipeline of the instance; after success it is found by name |
| Autoloader.Database.EnsureExporterRow | internal/autoloader/autoloader.go:297-338 | one exporter; after success a further load passes it over |
| Autoloader.Database.EnsureBlockchain | internal/autoloader/autoloader.go:61-89 | the returned id is the one the name resolves to afterwards |
| Autoloader.Database.CreateFactoryRules | internal/autoloader/autoloader.go:251-295 | creation by ABI name, depth first, keeping what was created before the first name that is not found |
| Autoloader.InsertByNameIsInsert | internal/autoloader/autoloader.go:251-295 | it succeeds if and only if every ABI name resolves, nested ones included, and then creates exactly the forest that is meant |
| Autoloader.OtherSourcesKeepTheirRules | internal/autoloader/autoloader.go:251-295 | even when it fails half-way, every other owner keeps its rules |
| Autoloader.TypesMayBeLeftOut | internal/autoloader/autoloader.go:264-267 | rules that name no type are created as if they named the type of plain contracts, nested ones included and also when it ends half-way |
| Autoloader.BlockchainMayBeLeftOut | internal/autoloader/autoloader.go:179-191 | a source that names no blockchain is created as if it named the one of its pipeline |
| ConfigExport.ExportIsAFixpoint | internal/grpc/config-export-handlers.go:14-178 | the export of tables with unique names and resolving references, loaded where only the plugins are, exports as itself, rule trees included and factory children excluded |
| ConfigExport.LoadThenExport | internal/autoloader/autoloader.go:28-338 | any complete configuration, loaded into an empty database and exported, comes back unchanged |
| ConfigExport.ExportIsComplete | internal/grpc/config-export-handlers.go:97-178 | such tables export a complete configuration |
| ConfigExport.RulesRoundTrip | internal/grpc/config-export-handlers.go:181-222 | complete rules resolve, and what they resolve to is written as the same rules |
| ConfigExport.ExportRulesAt | internal/grpc/config-export-handlers.go:188-222 | an owner's forest, nested rules included, with its ABIs by name |
| ConfigExport.BuildExportedConfig | internal/grpc/config-export-handlers.go:39-178 | the code that builds the export computes it |
| ConfigNormalForm.LoadThenExportIsExact | internal/grpc/config-export-handlers.go:14-21 | loading a configuration where only the plugins are and exporting it gives the same configuration if and only if it is complete |
| ConfigNormalForm.LoadedIsExportable | internal/autoloader/autoloader.go:21-59 | whatever was declared, missing or half-created, what a load makes of it exports completely |
| ConfigNormalForm.ExportedFormIsStable | internal/grpc/config-export-handlers.go:14-21 | what a load and an export make of any configuration, a further load and export keep |
| Batching.ComputeLogsAndTxs | internal/indexer/indexer.go:667-833 | one stored log and transaction per log, in order, with its own sender and time, if and only if everything needed is there; headers and then transactions are asked for in batches |
| Batching.EachHashIsAskedOnce | internal/indexer/indexer.go:679-693 | every distinct hash is in exactly one batch, once, and no batch is empty or beyond the limit; without a limit there is one batch |
| Batching.PlaceByFirstUse | internal/indexer/indexer.go:679-694 | hashes are in the order of their first use |
| Batching.TxIndexIsExact | internal/indexer/indexer.go:756-798 | the stored index is the index in the block if and only if that is the hash's place among the distinct hashes of the window |
| Batching.SecondTransactionIsStoredAsFirst | internal/indexer/indexer.go:756-798 | a transaction with index 1 that is stored with index 0 |
| Batching.CreationGoesToZero | internal/indexer/indexer.go:782-787 | a transaction that creates a contract is stored with the zero address as its recipient |
| Batching.LoadTransactions | internal/indexer/indexer.go:704-743 | the transactions in the order of their hashes, in full batches but for the last; a failing request fails the call |
| Batching.LoadBlockTimestamps | internal/indexer/indexer.go:835-876 | the time of every hash, if and only if no request fails and every header exists |
| Batching.FindTx | internal/indexer/indexer.go:761-770 | a transaction with the log's hash, if there is one |
| Batching.LimitMustNotBeZero | internal/indexer/indexer.go:711-723 | the transaction loop gets on if and only if the limit is not 0 |
| Pagination.SearchPaged | internal/database/log-stores/elasticsearch/store.go:373-392 | the concatenated pages are the full result, each hit once, also when the total is a multiple of the page size; how many requests that takes |
| Pagination.PagingNeedsDistinctKeys | internal/database/log-stores/elasticsearch/store.go:373-375 | for all page sizes paging gives the whole sorted result if and only if the sort keys tell all hits apart |
| Pagination.UniqueIdsGiveDistinctKeys | internal/database/log-stores/elasticsearch/store.go:450-458 | unique ids make both sort keys distinct |
| Pagination.HitsAreTheSelection | internal/database/log-stores/elasticsearch/store.go:255-290 | the full result is the sorted multiset of the selected documents |
| Pagination.LogsComeInPositionOrder | internal/database/log-stores/elasticsearch/store.go:450-458 | logs come in block and log index order whatever their ids, and in the order of their ids at one position |
| Pagination.RangesJoin | internal/database/log-stores/elasticsearch/store.go:267-290 | the exporter's query for one range and then with the bound behind it for the next gives what it gives for both at once |
| Pagination.AfterIsBetween | internal/database/log-stores/elasticsearch/store.go:267-290 | behind a whole block it gives what the queries for each of its sources give for the blocks after it |
| Pagination.BlocksJoin | internal/database/log-stores/elasticsearch/store.go:255-265 | queries for adjacent stretches of blocks join |
| Pagination.OneBlock | internal/database/log-stores/elasticsearch/store.go:255-265 | a query for one block gives exactly the documents of its source in that block |
| Pagination.TransactionsJoin | internal/database/log-stores/elasticsearch/store.go:318-328 | so do queries for transactions, the later blocks first |
| Pagination.TransactionsComeNewestFirst | internal/database/log-stores/elasticsearch/store.go:318-328 | transactions come with falling blocks, and with falling ids within a block |
| Pagination.GetLogsAfter | internal/database/log-stores/elasticsearch/store.go:267-290 | the exporter's query gives the full result; without sources it asks nothing |
| SearchStore.FoundExactly | internal/database/log-stores/elasticsearch/store.go:156-290 | the exporter's query gives a row that has been written if and only if it is asked for and no other source has written the same log since, and gives nothing else |
| SearchStore.StoresAgree | internal/database/log-stores/interface.go:15-19 | when no two sources hold the same log, the search engine and the file store give the same logs in the same order for every query of the exporter |
| SearchStore.SharedLogIsKeptOnce | internal/database/log-stores/elasticsearch/store.go:156-168 | a log that another source writes too is no longer found for the first, whatever is asked for |
| Fanout.NilMeansEverythingWasSent | internal/gateway/gateway.go:125-172 | a nil return without the client giving up means that an interleaving of what the backends gave was sent: each whole stream if it opened and did not break off, else what came before, in order, nothing twice |
| Fanout.NilAfterBreakCanBeEmpty | internal/gateway/gateway.go:148-156 | a run that returns nil with nothing sent because a backend broke off |
| Fanout.SentIsAlwaysInOrder | internal/gateway/gateway.go:128-172 | at any moment what was sent holds a first stretch of every backend's stream in its order |
| Fanout.EveryStepIsProgress | internal/gateway/gateway.go:139-172 | every step, failures included, leaves less to do, so every run ends |
| Fanout.NoDeadlock | internal/gateway/gateway.go:139-172 | as long as a goroutine runs or the call has not returned, something can happen |
| Fanout.NilAfterCancellationCanBeEmpty | internal/gateway/gateway.go:159-168 | a run that returns nil with nothing sent after the client gave up |
| TtlCache.AnswersAreNotTooOld | internal/gateway/resolver.go:41-61 | in every interleaving an answer at time t was the loader's own answer no earlier than t minus the time to live minus the duration of its load, and an entry as old as the time to live is not served |
| TtlCache.InvalidationHolds | internal/gateway/resolver.go:63-69 | after an invalidation only values read later are served if and only if no lookup had read the row without having stored it |
| Routing.Cache.GetOrLoad | internal/gateway/resolver.go:41-61 | a fresh entry or else the loader's answer, kept unless it is an error |
| Routing.Resolver.AddrForPipeline | internal/gateway/resolver.go:179-185 | the answer of the two cached hops, whatever they hold; with unchanged rows the address the rows give |
| Routing.Resolver.AddrForSource | internal/gateway/resolver.go:143-193 | the same through the source's pipeline, error cases included |
| Routing.Resolver.AddrForExporter | internal/gateway/resolver.go:160-201 | the same through the exporter's pipeline, error cases included |
| Routing.Resolver.RunningAddrs | internal/gateway/resolver.go:203-233 | the cached list while fresh, else the running instances, else all, else an error |
| Routing.FleetPrefersRunning | internal/gateway/resolver.go:203-233 | the fleet are the addresses of exactly the running instances in the order of their rows, or of all if none is running |
| Routing.InstanceDefaults | internal/gateway/resolver.go:101-112 | the address of an instance with and without its own host and port |
| Routing.AddressOfOwner | internal/gateway/resolver.go:143-201 | a pipeline, and a source or exporter through it, has an address if and only if it is bound to an instance that exists, and then that one |
| Routing.Resolver.InvalidateInstance | internal/gateway/resolver.go:252-259 | the address and the running list are forgotten, the binding of pipelines is not |
| Routing.RouteAfterInvalidation | internal/gateway/resolver.go:252-259 | while the binding of a pipeline to an invalidated instance is fresh, the route is right if and only if the row still binds it there |
| Routing.RouteAfterExpiry | internal/gateway/resolver.go:41-61 | once the binding has expired the rows decide |
| Routing.MovedPipelineGoesToOldInstance | internal/gateway/resolver.go:252-259 | a moved pipeline that is still sent to its old instance |
| Routing.EveryAddressGetsItsTurn | internal/gateway/resolver.go:235-244 | for any counter, as many consecutive calls as there are addresses pick each exactly once if and only if the counter stays below 2^63, or there is one address, or only the last call is at 2^63 and the number of addresses divides it |
| Routing.PicksAcross | internal/gateway/resolver.go:235-244 | when the calls carry the counter across 2^64, a call picks an address if and only if it comes that many calls after the wrap |
| Routing.PickedExactly | internal/gateway/resolver.go:235-244 | an address is picked if and only if the counter is below 2^63 or the number of addresses divides what is left to 2^64 |
| Routing.NothingPickedAtTwo63 | internal/gateway/resolver.go:235-244 | with three instances the call at 2^63 finds none |
| TopicCodec.StableIffCanonical | webui/components/ResourceManager.tsx:525-574 | encoding the decoding of a stored topic gives the same 64 digits if and only if the topic is canonical for its type |
| TopicTypes.Addresses | webui/components/ResourceManager.tsx:530-532 | an address becomes the topic with 24 zeros in front of its digits, and is shown as it was |
| TopicTypes.Integers | webui/components/ResourceManager.tsx:533-542 | an integer of a type uint or int of any width becomes the topic of its residue, if it is in range |
| TopicTypes.OtherIntegers | webui/components/ResourceManager.tsx:533-540 | integers in hexadecimal, and texts that are none |
| TopicCodec.OctalGrows | webui/components/ResourceManager.tsx:536 | what an octal numeral denotes when a digit is appended |
| TopicCodec.BinaryGrows | webui/components/ResourceManager.tsx:536 | what a binary numeral denotes when a digit is appended |
| TopicTypes.Booleans | webui/components/ResourceManager.tsx:533-542 | true and 1 become the topic of 1, any other text that of 0 |
| TopicTypes.FixedSizeBytes | webui/components/ResourceManager.tsx:543-546 | bytes of fixed size are filled up with zeros at the end and cut after 64 digits |
| TopicTypes.OtherTypes | webui/components/ResourceManager.tsx:547-549 | whatever is of another type is kept as typed, with a prefix |
| TopicTypes.TextsAreOther | webui/components/ResourceManager.tsx:547-549 | text, bytes without a size and arrays are of such a type |
| TopicTypes.WildcardsOnly | webui/components/ResourceManager.tsx:527-529 | only nothing is a wildcard |
| TopicTypes.Shown | webui/components/ResourceManager.tsx:553-574 | what is shown for a stored topic, type by type |
| TopicTypes.OthersAreShownAsTheyAre | webui/components/ResourceManager.tsx:553-557 | what is no topic is shown as it is stored |
| TopicTypes.StableByType | webui/components/ResourceManager.tsx:525-574 | when a stored topic survives being shown and encoded again, type by type |
| TopicCodec.TrimmedStableIffCanonical | webui/components/ResourceManager.tsx:525-574 | the same when the encoding is trimmed, as it is when a list is parsed |
| TopicCodec.IntegersEncodeAsResidues | webui/components/ResourceManager.tsx:533-541 | an integer is encoded as the topic of its residue modulo 2^256 if and only if it lies in [-2^256, 2^256) |
| TopicCodec.IntegersShowAsResidues | webui/components/ResourceManager.tsx:559-565 | a saved integer is shown as its residue |
| TopicCodec.EditChangesOnePosition | webui/components/ResourceManager.tsx:862-872 | editing one filter leaves another as the server had it if and only if encoding what the editor shows for that one gives it back; where the server had a topic or nothing, if and only if it was a wildcard or canonical for its type |
| TopicCodec.EditedPosition | webui/components/ResourceManager.tsx:862-872 | the edited position holds the encoding of what was typed if and only if that does not end in white space |
| TopicCodec.EditedList | webui/lib/resources/sources.ts:164-170 | every position of the list the server gets after an edit |
| TopicCodec.EncodedIsTight | webui/components/ResourceManager.tsx:527-550 | an encoding survives trimming if and only if it does not end in white space |
| TopicCodec.Update | webui/components/ResourceManager.tsx:862-872 | the new entries and the text that is kept |
| TopicCodec.ParseTopicFilters | webui/lib/resources/sources.ts:164-170 | the parsed list: trimmed parts without trailing blanks |
| TopicCodec.ParseOfSaved | webui/lib/resources/sources.ts:164-170 | saving a list and parsing it gives the list with every part trimmed, interior wildcards included |

## Left out

- RPC transport, ABI decoding, sender recovery, JSON, plugin loading and authentication: foreign calls; their results are parameters or opaque values.
- SQL and gorm: tables are maps or sequences with fresh increasing ids, soft-deleted rows are absent, and calls to the database succeed except where a failure is a parameter; in `RuleStore` only cloning can fail.
- The SQL, Mongo and ClickHouse stores: their filtering and ordering happen in the database.
- Transactions in the file store: written and read by the same code as logs; the file store's model holds logs.
- GetLogs, GetLatestLogs and the streaming reads: straight filters over what is modelled.
- Service managers: one live worker per source and exporter is an assumption.
- Metrics, bus notifications, status columns, logging and update streams.
- Chain reorganisations: the code stores the removed flag and never acts on it.
- Concurrent deletion and spawning: a delete is proved for the tables as they are when it begins.
- Search-engine sort values: kept exactly; the rounding of numbers above 2^53 in JSON is not modelled.
- Unicode: trimming and case mapping are those of ASCII.
- Indexer.Service.ServeIndexation: the sequence of heads is a parameter, because polling and waiting go on without end.
- Exporter.Service.Round: the loop around it is not modelled as a method, because the sources move between turns; runs of the step system cover it.
- Routing.Resolver.AnyAddr: its address is stated through the pick for the counter; that the picks take turns is a lemma about the counter.
