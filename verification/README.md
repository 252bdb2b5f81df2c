# Qualification and architecture tooling: verification model

A Dafny model of the tooling that guards this repository: the import-cycle engine of the
architecture inventory, the disposable hierarchy target with its ownership and cleanup rules, the
qualification run around it, and the smaller state machines that support them. `dafny verify
dfyconfig.toml` checks everything.

## Import cycles

`StrongComponents.dfy` is Tarjan's search as the inventory writes it, a class over the variables the
nested `visit` closes over. `Search.dfy` says what the search keeps at every moment and proves each
step keeps it: numbers and stack agree, closed modules have nowhere new to go, every stacked module
reaches an open one at or below it, and every popped segment is a whole component. The report is
exactly the strongly connected components with at least two modules. `CycleTheorems.dfy` draws the
consequences, and `Inventory.dfy` carries them from the syntax trees of all modules to the two cycle
lists of the snapshot: `RunningGraph` is defined by deleting the bodies of TYPE_CHECKING guards from
the trees, independently of the depth counter of the visitor (`GuardedBodiesNeverRun` says which guards).
`ReportMeans` and `ReportInOrder` say what a report holds in terms of imports and of characters. A side
result (`FallbackIsIdle`): the
visitor's fallback from `base.alias` to `base` can never record anything.

## The disposable target and the run around it

`Lineage.dfy`, `Seeding.dfy`, `Store.dfy`, `TargetChecks.dfy`, `CleanupSafety.dfy` and
`FixtureTarget.dfy` model the target for any fixture: any forest, any paths, any other content of the
database. The main results: the recursive lineage check accepts exactly the closed acyclic parent
maps; level-by-level seeding reads back as the paths asked for if and only if they are closed under
parents and have depth 1 to 4; the business check accepts exactly one-to-one matches, and a cleanup goes
through exactly on databases whose scope it owns, as long as its requests are answered and its reads stay
below the limit; a cleanup either sends nothing or keeps referential integrity in every intermediate state, removes exactly the owned
records and peels the forest in the order of the heights.

`TargetMeaning.dfy` says the conditions of these operations again of the records themselves: chains of
parents instead of computed paths, and single records instead of computed sets.

`Conservation.dfy` and `Qualification.dfy` put two such targets into the run. Every step may raise
before or after it takes effect, a reply may be lost, an interruption may strike between any two
statements of the attempt, and a second one may cut the handler of the first short. A receipt is wrong,
claiming that no cleanup was needed or that cleanup is complete over a database with records left,
exactly if the handler was cut before it corrected the report and the first exception struck while a
seeding had made records and the report did not yet say so (`Qualify`; `MisleadingRun` goes
through the smallest such run). In every run a passed receipt means that all eighteen protocol steps were completed
in order, with both results verified on the way (`CompletedRun`), the database is as it was found and only protected credentials are held; the phase named in the
receipt fits what was done; no seeding starts over leftovers; records that were there before, and
credentials of others, are never changed. The contracts hold even for an interruption after the status is
set: such a receipt can carry PASSED together with a failure code, and still everything was done.

## Supporting machines

Where a promise of the code is not quite true, the model proves the exact condition instead.

- `OwnedVault.dfy`: every live entry of the object is claimed and in the written ledger, whatever is cut
  where. All through a run its calls leave foreign entries alone exactly if nobody else writes under an id
  that is claimed at that moment (`ForeignEntriesSurvive`); `CutSetCanOverwrite` is a run that does not.
- `Journals.dfy`: eager and late journals finish with the same rows exactly when row ids that occur
  twice are equal or recorded (`JournalsCanDiffer` is the smallest difference). A record after the end of
  a run makes the benchmark reader stale exactly if it brings another row for one of the run
  (`LateRecordIsNotRead`).
- `LocalSecrets.dfy`: creation is all-or-nothing for every failure to open or to write, and otherwise
  exactly unless it is cut at a moment without a handler: just after a file is opened, at setting its
  mode, before the finished file is listed, where that file stays behind (`ModeFailureLeavesFile`), or
  after the last file, where all stay.
- `BatchSeeding.dfy`: whichever batch raises, the recorded ids are the acknowledged ones, exactly unless
  an interruption falls between an answer and its record. Cleanup succeeds exactly if those ids are some,
  at most 2000, distinct and positive and its requests are answered, and then removes exactly them.
- `FaultObserver.dfy`: in every run the fault is injected once if its condition is ever met, and never
  otherwise (`InjectsOnce`), with exact counts of what the target accepted.
- `LockFile.dfy`, `CorrectionReview.dfy`: exact acceptance with each
  block checked exactly once, and independence of input order.

## Model

| member | source | states |
|---|---|---|
| StrongComponents.Tarjan.Visit | scripts/architecture_inventory.py:220-243 | One visit keeps every invariant of the search, leaves older stack entries, numbers and low links as they were, and returns with low link equal to number exactly for the first-visited module of its component |
| StrongComponents.Tarjan.Follow | scripts/architecture_inventory.py:227-232 | Following one import, by recursion or by an already known number, keeps the low link the number of a stacked module that is reached and covers every link back below |
| StrongComponents.Tarjan.Close | scripts/architecture_inventory.py:233-243 | The end of a visit hands its duty to an older open module, or pops exactly the component of its module |
| StrongComponents.Tarjan.PopUntil | scripts/architecture_inventory.py:235-241 | The pop loop returns the stack segment from the module up, each module once, and restores the stack and its set |
| StrongComponents.Tarjan.VisitAll | scripts/architecture_inventory.py:245-247 | Everything is visited, the stack ends empty, and the popped segments, single modules included, partition the modules into their components |
| StrongComponents.BuildAdjacency | scripts/architecture_inventory.py:207-211 | The adjacency lists hold exactly the imports of each module, for any order and repetition of names and edges |
| StrongComponents.ReportCycles | scripts/architecture_inventory.py:203-248 | The report is exactly the strongly connected components with at least two modules, each once, each sorted, in sorted order |
| Search.SegmentIsComponent | scripts/architecture_inventory.py:233-241 | When a low link equals its number, the stack segment from that module up is its whole component |
| Search.LowLinkMarksFirst | scripts/architecture_inventory.py:228-234 | After a visit the low link equals the number if and only if the module carries the smallest number of its component |
| Search.LeaveLinked | scripts/architecture_inventory.py:233-234 | A module that returns unpopped leaves every stacked module with a path to an open module at or below it |
| CycleTheorems.ReportUnique | scripts/architecture_inventory.py:242-248 | The graph determines the report completely |
| CycleTheorems.ReportIgnoresOrder | scripts/architecture_inventory.py:203-211 | Inputs with the same modules and the same import pairs, in any order and with any repetition, have the same report |
| CycleTheorems.ReportMeans | scripts/architecture_inventory.py:233-248 | Two modules stand in one reported cycle if and only if imports lead from each to the other; no module stands alone in a cycle or in two cycles |
| CycleTheorems.ReportInOrder | scripts/architecture_inventory.py:243-248 | Within a cycle names ascend by their first different character, beginnings first, and the cycles ascend likewise |
| Orders.NameLeqMeans | scripts/architecture_inventory.py:243 | Names compare by the first character in which they differ, and a beginning comes first |
| Orders.NamesLeqMeans | scripts/architecture_inventory.py:248 | Lists of names compare by the first name in which they differ |
| CycleTheorems.EmptyReportIffOrdered | scripts/architecture_inventory.py:117-120 | The report is empty and no module imports itself if and only if the modules can be ordered after their imports |
| CycleTheorems.FewerLinksNest | scripts/architecture_inventory.py:271-289 | With a subset of the links every cycle lies in exactly one cycle of the larger graph, and components of the larger are unions of components of the smaller |
| Imports.KnownModule | scripts/architecture_inventory.py:92-100 | The loop computes the resolution function whose meaning ResolveIsLongest states |
| Imports.ResolveIsLongest | scripts/architecture_inventory.py:92-100 | The result is the longest known dotted prefix, for names that start like the package, and nothing otherwise |
| Imports.FallbackIsIdle | scripts/architecture_inventory.py:151-155 | When base and alias together resolve to nothing, so does the base |
| Imports.ImportVisitor.Record | scripts/architecture_inventory.py:117-120 | Records the resolved module, never the importer itself, outside guards exactly at depth zero |
| Imports.ImportVisitor.Visit | scripts/architecture_inventory.py:122-155 | A visited statement adds exactly its targets, adds outside guards exactly the targets of its running form, and leaves the depth counter balanced |
| Imports.ImportVisitor.VisitImportFrom | scripts/architecture_inventory.py:138-155 | Every alias counts as the resolution of its qualified name, a star as that of its base |
| Imports.FoldModes | scripts/architecture_inventory.py:174-176 | A module stays type-only exactly while none of its occurrences is outside guards |
| Imports.ImportsFromSource | scripts/architecture_inventory.py:158-182 | One sorted edge for each mentioned module other than the importer, type-only if and only if the tree without guarded bodies does not mention it |
| Imports.AllRunningTargets | scripts/architecture_inventory.py:122-132 | What runs mentions no module that the written tree does not |
| Imports.GuardedBodiesNeverRun | scripts/architecture_inventory.py:81-89 | Exactly the bodies of tests TYPE_CHECKING and typing.TYPE_CHECKING do not run, and every else part does |
| Imports.EdgeLeqMeans | scripts/architecture_inventory.py:177-182 | Edges are ordered as the tuples of importer, imported module and flag |
| Inventory.DiscoverImports | scripts/architecture_inventory.py:185-200 | The edges are exactly the edges of all modules, sorted |
| Inventory.EdgesAreGraphs | scripts/architecture_inventory.py:207-209 | Every edge endpoint is a known module, all edges form the written graph, and those not type-only the running graph |
| Inventory.BuildSnapshot | scripts/architecture_inventory.py:256-289 | From the syntax trees, the two cycle lists are the reports of the running and of the written import graph |
| Inventory.SnapshotMeaning | scripts/architecture_inventory.py:283-289 | Each list is empty if and only if its imports can be ordered, and each runtime cycle lies in exactly one cycle of all imports |
| Inventory.SnapshotIgnoresOrder | scripts/architecture_inventory.py:259-289 | The cycle lists do not depend on the order in which modules are found |
| Lineage.AcceptsIffForest | scripts/hierarchy_qualification_target.py:462-475 | The recursive path check accepts every row if and only if all parents are present and no cycle exists |
| Lineage.PathIgnoresSeen | scripts/hierarchy_qualification_target.py:462-473 | The path found does not depend on the rows already seen |
| Lineage.PeelRound | scripts/hierarchy_qualification_target.py:582-587 | Round k of the peeling removes exactly the rows of height k and leaves those with a longer descent |
| Lineage.LeafExists | scripts/hierarchy_qualification_target.py:581-584 | While rows of an accepted forest remain there is a leaf, so the cycle failure never occurs |
| Lineage.ChildIsLower | scripts/hierarchy_qualification_target.py:581-587 | A child is strictly lower than its parent |
| CleanupSafety.RoundsInOrder | scripts/hierarchy_qualification_target.py:578-587 | Every category leaves in exactly one round, and in an earlier one than its parent |
| Counting.OneToOneByCount | scripts/hierarchy_qualification_target.py:476-500 | The right number of keys and the right set of values is a one-to-one match, and conversely |
| TargetChecks.Read | scripts/hierarchy_qualification_target.py:340-345 | A read succeeds exactly if it is answered and below the limit, and then returns each matching record once |
| FixtureTarget.Target.Validate | scripts/hierarchy_qualification_target.py:404-406 | Accepts exactly a database where no category carries a fixture name and no product a fixture reference, if its reads are answered and the other checks pass |
| TargetChecks.ProductChecks | scripts/hierarchy_qualification_target.py:480-489 | Comparing the count and the dictionary of product paths accepts exactly the one-to-one matches with the expected paths |
| TargetMeaning.PathIsChain | scripts/hierarchy_qualification_target.py:462-475 | The path computed for a category is that of the chain of its parents to a root, all with fixture names |
| TargetMeaning.VerifiedMeans | scripts/hierarchy_qualification_target.py:475-500 | Accepted is exactly the database in which every fixture category has an expected path and every expected path one category, every expected reference one product in the category of its path, and every fixture product one variant; and what each failure says |
| TargetMeaning.ScopeEmptyMeans | scripts/hierarchy_qualification_target.py:347-356 | The scope is empty exactly if no category carries a fixture name and no product a fixture reference |
| TargetMeaning.AcceptableMeans | scripts/hierarchy_qualification_target.py:520-575 | A cleanup may delete exactly if the fixture result stands, its records are the owned ones, nothing else depends on them, they have owned names only, and remotely those names select nothing else |
| TargetMeaning.BusinessReadableMeans | scripts/hierarchy_qualification_target.py:340-345 | The business check reads fewer than a hundred records of each kind |
| TargetMeaning.ReadableMeans | scripts/hierarchy_qualification_target.py:340-345 | A cleanup reads fewer than a hundred records of each kind |
| TargetMeaning.WithoutOwnedMeans | scripts/hierarchy_qualification_target.py:576-587 | A completed cleanup takes away the owned records, the variants of owned products and the bindings of owned records, and leaves all else unchanged |
| TargetMeaning.OnlyOwnedRemovedMeans | scripts/hierarchy_qualification_target.py:576-587 | Every state on the way holds all other records unchanged |
| FixtureTarget.Target.VerifyBusiness | scripts/hierarchy_qualification_target.py:458-502 | Accepts exactly the databases whose categories, products and variants match the expectation one to one, if its reads are answered and below the limit; names the check that failed |
| Seeding.RoundTripIffSeedable | scripts/hierarchy_qualification_target.py:421-437 | Reading back what was seeded gives the paths asked for if and only if they have depth 1 to 4 and contain their parents |
| Seeding.OrphanReadsBackShort | scripts/hierarchy_qualification_target.py:431-433 | A path without its parent path becomes a root |
| Seeding.CreatedLineage | scripts/hierarchy_qualification_target.py:462-473 | The lineage check reads every created record as its path, as far as parents were seeded |
| Seeding.SeedRoundTrip | scripts/hierarchy_qualification_target.py:421-475 | After all levels the created records read back as exactly the paths asked for if and only if those are seedable, each parent made one level before its children |
| Seeding.NextLevel | scripts/hierarchy_qualification_target.py:424-437 | A batch with new distinct ids extends the records made so far by one level and changes nothing older |
| Seeding.LevelInOrder | scripts/hierarchy_qualification_target.py:425 | A level lists the paths of its depth in the order of the fixture |
| FixtureTarget.Target.CreateRows | scripts/hierarchy_qualification_target.py:428-434 | The database makes one new record a row, or the reply is lost before or after that; what it answers is logged on its side |
| FixtureTarget.Target.Seed | scripts/hierarchy_qualification_target.py:421-437 | Fails exactly if a request is not answered or it is cut; whatever fails, exactly the ids the database acknowledged are owned, except for the last batch after an interruption between its answer and the update; the database stays integral and only gains seeded categories, and on success all levels are there |
| FixtureTarget.Target.AdoptVerified | scripts/hierarchy_qualification_target.py:439-456 | On success exactly the committed rows and proposed names are taken over; a bad receipt takes over at most a part |
| FixtureTarget.Target.CleanupChecks | scripts/hierarchy_qualification_target.py:521-575 | Passes exactly on exact ownership of a verified scope, no foreign dependents and only own names on owned records, if its reads are answered and below the limit; each failure names a check that truly fails |
| FixtureTarget.Target.Unlink | scripts/hierarchy_qualification_target.py:504-518 | Nothing is sent and nothing changes without ids; a request may be refused or its answer lost, and only an answered one is trusted |
| FixtureTarget.Target.Peel | scripts/hierarchy_qualification_target.py:578-587 | The loop removes all owned categories round by round in the order of heights, through integral states only, and stops early exactly if a request is not answered |
| FixtureTarget.Target.Cleanup | scripts/hierarchy_qualification_target.py:520-601 | Succeeds exactly on acceptable databases with all requests answered and reads below the limit; a failed check changes nothing and names a check that truly fails; every state on the way is integral and lacks only owned records; success removes exactly the owned records, bindings and variants included |
| Store.StageSafe | scripts/hierarchy_qualification_target.py:537-587 | Without foreign dependents, owned categories that remain together with their parents leave no dangling reference in the whole database |
| Conservation.RemovalRestores | scripts/hierarchy_qualification_target.py:520-588 | Removing the records in scope gives back the database as it was before the fixture |
| Conservation.PartialRemovalAdds | scripts/hierarchy_qualification_target.py:576-587 | A cleanup that stops half way leaves every earlier record unchanged |
| Qualification.Run.AuthoringPart | scripts/qualify_hierarchy_workflow.py:91-132 | The first part keeps report and database in step at every interruption and ends with the database as found |
| Qualification.Run.RecipePart | scripts/qualify_hierarchy_workflow.py:133-159 | The second part starts from the database as found and ends with it |
| Qualification.Run.SeedTarget | scripts/qualify_hierarchy_workflow.py:97-99 | Seeding starts only on the database as found and leaves a seeding target in hand whatever happens |
| Qualification.Run.LoadAndVerify | scripts/qualify_hierarchy_workflow.py:109-120 | After a load with its checks the owned records are the earlier ones and exactly those receipted, the database matches the expectation, and whatever raises, earlier records are unchanged |
| Qualification.Run.CleanTarget | scripts/qualify_hierarchy_workflow.py:129-132 | A completed cleanup restores the database; a failed one leaves only fixture records behind |
| Qualification.Run.Finish | scripts/qualify_hierarchy_workflow.py:160-164 | PASSED is set only after the vault cleanup left nothing but protected credentials and a ledger that says so |
| Qualification.Run.Qualify | scripts/qualify_hierarchy_workflow.py:74-193 | Claims that nothing was needed, or that cleanup is complete, over a changed database exactly if the handler is cut and the first exception struck a seeding not yet reported; PASSED implies every step completed in order, the database as found and a clean vault; no seeding starts over leftovers; earlier records never change |
| Qualification.CompletedRun | scripts/qualify_hierarchy_workflow.py:97-163 | A run that completed its steps began both parts with an empty scope, seeded all levels, had the result verified, and left the database as found |
| Qualification.MisleadingRun | scripts/qualify_hierarchy_workflow.py:97-99 | A run that seeds one category, is interrupted after the answer and again in the handler, and reports that no cleanup was needed |
| Qualification.Run.Handle | scripts/qualify_hierarchy_workflow.py:164-175 | A handler that gets through leaves a claim that nothing was needed, or that cleanup is complete, only over the database as found and with no seeding target in hand; with one in hand it says incomplete exactly in the three cleanup phases, and retained otherwise |
| OwnedVault.Vault.Set | scripts/hierarchy_qualification_target.py:292-299 | Does exactly the statements it gets through, keeps every live own entry claimed and in the ledger at every cut, and without intrusion changes no foreign entry |
| OwnedVault.Vault.Delete | scripts/hierarchy_qualification_target.py:301-304 | Refuses unclaimed ids without effect and otherwise removes that entry only; without intrusion it is no foreign one |
| OwnedVault.Vault.Cleanup | scripts/hierarchy_qualification_target.py:306-310 | Is a row of deletions of claimed entries that are not protected; it completes exactly if it is not cut, and then has removed exactly those and left a ledger of the rest |
| OwnedVault.Vault.RivalWrites | scripts/hierarchy_qualification_target.py:282-299 | Makes the entry somebody else's, and breaks exclusiveness exactly under a claimed id |
| OwnedVault.RunKeepsCovered | scripts/hierarchy_qualification_target.py:292-310 | After every sequence of calls, each cut anywhere, all live own entries are claimed and in the written ledger |
| OwnedVault.ProtectedMeans | scripts/hierarchy_qualification_target.py:308 | An entry is protected if and only if the mark stands somewhere in its id |
| OwnedVault.SparesIffUndisturbed | scripts/hierarchy_qualification_target.py:292-304 | At a moment no call can touch a foreign entry if and only if none stands under a claimed id |
| OwnedVault.ForeignEntriesSurvive | scripts/hierarchy_qualification_target.py:282-310 | All through a run no call can touch a foreign entry if and only if nobody else writes under an id claimed at that moment |
| OwnedVault.OthersKeepTheirs | scripts/hierarchy_qualification_target.py:282-310 | Such a run leaves every entry of others as they last wrote it |
| OwnedVault.CutSetCanOverwrite | scripts/hierarchy_qualification_target.py:292-304 | A set cut after its claim, an entry of somebody else under that id, and a repeated set that overwrites it |
| FaultObserver.Observer.Call | scripts/hierarchy_qualification_journey.py:70-101 | Ends as it would without the observer and is forwarded, unless it is the first event to meet the condition of the fault; counts exactly the rows the target accepted, lost replies included |
| FaultObserver.Observer.Record | scripts/hierarchy_qualification_journey.py:103-113 | Interrupts exactly the first durable record at the chosen boundary |
| FaultObserver.InjectsOnce | scripts/hierarchy_qualification_journey.py:63-113 | In every run exactly one event ends otherwise than without the observer if some event meets the condition of the fault, and none otherwise; every call reaches the target but the one rejected |
| FaultObserver.AcceptedMeans | scripts/hierarchy_qualification_journey.py:77-90 | Accepted is a write with status 200 and a positive id or a list of some, all positive, counted by its length |
| Journals.JournalsAgree | scripts/qualify_completed_load_correction.py:449-454 | Eager rewriting and late materialisation give the same rows if and only if shared row ids are equal or recorded; distinct ids always suffice |
| Journals.JournalsCanDiffer | scripts/benchmark_dependency_execution.py:135-159 | Two unrecorded rows with one id end up different in the two kinds of journal |
| Journals.EagerJournal.Record | scripts/qualify_completed_load_correction.py:439-454 | Rewrites the rows of the run with the recorded ones, order kept |
| Journals.EagerRowIsLatest | scripts/qualify_completed_load_correction.py:449-454 | A row of a finished run is the last that any batch brings for its id, or the row started with |
| Journals.BenchmarkJournal.GetCurrentRun | scripts/benchmark_dependency_execution.py:130-133 | A run that is returned is not running and carries the latest outcomes, if it was finished after the last record |
| Journals.BenchmarkJournal.Record | scripts/benchmark_dependency_execution.py:142-148 | Leaves readers up to date while the run is running, and afterwards exactly if every row of the run whose id it carries equals the last it carries for that id |
| Journals.LateAfterOne | scripts/benchmark_dependency_execution.py:142-159 | One more batch leaves the materialised rows as they were if and only if it brings no different row for an id of the run |
| Journals.LateRecordIsNotRead | scripts/benchmark_dependency_execution.py:130-148 | A record after the end of the run that the reader does not show |
| Journals.BenchmarkJournal.StartRun | scripts/benchmark_dependency_execution.py:135-140 | A started run is read as the latest rows exactly if it is running or rows with one id are equal |
| Journals.BenchmarkJournal.FinishRun | scripts/benchmark_dependency_execution.py:150-159 | Materialises every row in its original place and never misses one |
| Journals.RepresentativeJournal.StartRun | scripts/qualify_representative_migration.py:97-102 | Starts once, for the named project |
| Journals.RepresentativeJournal.FinishRun | scripts/qualify_representative_migration.py:119-132 | Refuses another run, else finishes with the materialised rows |
| CorrectionReview.AcceptedIffCovers | src/impodo/adapters/correction_review_pipeline.py:60-97 | Accepted are exactly the preparations in one-to-one correspondence with the manifest, hashes, workspace, source and mapping agreeing |
| CorrectionReview.AcceptedMeans | src/impodo/adapters/correction_review_pipeline.py:60-97 | Accepted are exactly preparations with distinct datasets, one for every listed artifact, each with the four hashes of its artifact and corrected for this workspace, source and mapping |
| CorrectionReview.EvidenceMeans | src/impodo/adapters/correction_review_pipeline.py:98-131 | The evidence holds the new mapping, all datasets in the order of their ids, and their corrected snapshots in that order |
| CorrectionReview.RefusalMeans | src/impodo/adapters/correction_review_pipeline.py:65-97 | A refusal reports missing coverage exactly for no datasets, another count, repeated ids or another mapping of the first dataset by id, and otherwise a dataset that does not agree |
| CorrectionReview.ReviewIgnoresOrder | src/impodo/adapters/correction_review_pipeline.py:60-131 | The outcome, evidence and batch order included, is the same for every permutation of the datasets |
| BatchSeeding.ChunksPartition | scripts/qualify_completed_load_correction.py:716-720 | Batches are not empty, keep to the limit, and together are the values in order |
| BatchSeeding.Fixture.SeedProducts | scripts/qualify_completed_load_correction.py:714-722 | It raises exactly if a request is not answered or it is cut; the recorded ids are those the database acknowledged, unless the cut falls between an answer and its record: then exactly the last batch is missing; a full run sends every batch |
| BatchSeeding.Fixture.CreateRows | scripts/qualify_completed_load_correction.py:717-720 | The database logs what it answers; every product is an earlier one, an acknowledged one or one whose answer was lost |
| BatchSeeding.Fixture.UnlinkExact | scripts/qualify_completed_load_correction.py:367-382 | Sends exactly admissible ids (some, at most 2000, distinct, positive), and then deletes exactly those unless refused |
| BatchSeeding.Fixture.Cleanup | scripts/qualify_completed_load_correction.py:1086-1098 | Succeeds exactly if the recorded ids are admissible and both requests are answered, and deletes exactly those or nothing |
| BatchSeeding.Fixture.SeedAndClean | scripts/qualify_completed_load_correction.py:1086-1102 | However seeding ends, a cleanup is verified exactly if the recorded ids are admissible and its requests are answered, and leaves the products as before plus those never recorded; after a full seeding exactly as before |
| LockFile.ValidateLock | scripts/internal_release.py:289-319 | Accepts exactly the locks with both marks, enough declarations, and each declaration pinned and hashed before the next, having checked each block exactly once in order; otherwise names a faulty declaration, the last one checked |
| LockFile.BlockSettles | scripts/internal_release.py:300-309 | The streamed block holds a hash exactly if one stands between its declaration and the next |
| LockFile.ContainsMeans | scripts/internal_release.py:290-293 | A mark is present if and only if the text is something, the mark, and something |
| LockFile.DeclarationMeans | scripts/internal_release.py:298 | Which lines are declarations, and which characters are white space |
| LockFile.CheckEnvironment | scripts/internal_release.py:268-286 | Fails to parse exactly if some declaration has no pin, and otherwise reports exactly the declarations whose installed version is missing or differs |
| LockFile.PinMeans | scripts/internal_release.py:271-273 | What is read from a pinned line: the name before the first pin, and the version without the blanks and continuation sign at the end |
| LockFile.DiffersMeans | scripts/internal_release.py:274-284 | A pinned line matches if and only if that version is installed |
| LockFile.AcceptedLockParses | scripts/internal_release.py:271-273 | Every declaration of an accepted lock splits at its first pin |
| LocalSecrets.Directory.WriteSecret | deploy/local_rehearsal.py:45-58 | Never touches an existing file; a failed write removes the new file, a cut before or after the handled part leaves it |
| LocalSecrets.Directory.Prepare | deploy/local_rehearsal.py:61-96 | Succeeds exactly if all names stay free and nothing fails; a failed call leaves the directory as before, with what others put there, if and only if it is not cut at a moment without a handler, the time after the last file included; files of others never change |
| LocalSecrets.ModeFailureLeavesFile | deploy/local_rehearsal.py:57-58 | A failed mode change in an empty directory leaves the secret behind |

## Left out

- The production packages under `src/impodo`, apart from the correction review: execution,
  reconciliation, scheduling and persistence are not part of this model.
- HTTP transports, connectors, credentials, DuckDB, Polars and Parquet: the target is a database value
  whose bounded reads are complete below the limit, and whose replies may be lost.
- Parsing, relative-name resolution, file discovery, hashing and the counts of the snapshot: the model
  starts from syntax trees with relative imports already resolved.
- `relation_id` and record identifiers that are not positive integers: relations are read as an
  optional identifier.
- The load itself: it is assumed to add fixture records only (categories and products in scope,
  variants of added products, bindings of added records) and may raise at any point.
- Other clients of the disposable database: between the checks and the deletions of a cleanup nobody
  else writes, and the database keeps referential integrity at the start.
- Report fields without influence on the outcome (identifiers, timings, counts, the phase list), and
  the arguments, descriptor and credential checks, which only raise.
- The order of deletion within one unlink call, and reads that return partial rows.
- `_Executor` id allocation and `_call_counts` (plain counting), benchmark timing and memory sampling.
- External names are pairs of module and name; names with further dots are not modelled.
- LocalSecrets.Directory.Prepare: others create files under free names only and not during the rollback,
  and unlinking in the rollback does not fail.
- OwnedVault.Vault.Set: nobody else writes between its check and its last statement, and writing the
  ledger file is one step.
- Qualification.Run.Qualify: nobody else writes to the vault during the run, and the journey uses it only
  to set and delete; an interruption of the final block itself leaves no receipt; the seeded names are
  names of the fixture (`FixtureCovers`), as they are in the source.
- LockFile.ValidateLock: splitting the text into lines is outside; text and lines are separate inputs.
- Secret values, permissions, token handling, secret scanning, UI capture and document generation.
