# Alert engine verification

A Dafny model of the durable alert engine: tenant-owned rules with immutable revisions and
embeddings meet page revisions, and matches enter an append-only evidence ledger.

The project has five parts.

- **Rule activation** (`Activation`, `ActivationProof`, `ActivationRuns`, `ActivationScope`, `Sessions`). Sessions insert
  rules and revisions and move a rule's active pointer, interleaved statement by statement under
  READ COMMITTED. A session is a private set of rows over the committed tables; every statement takes
  a fresh snapshot. The limit trigger is split where another session may commit: lock, read, count,
  decide, foreign key check. The advisory lock is keyed by an arbitrary hash of tenant and owner.
  `Sessions.Database` runs `create_alert_rule` on a mutable database with the steps of other sessions
  let in between its statements. `ActivationScope` compares what the trigger counts with what the
  service shows as enabled and active under row level security.
- **Page history and match ledger** (`MatchKeys`, `Ledger`, `LedgerProof`, `Columns`, `PageHistory`,
  `RuleEmbeddings`, `Evaluation`, `Immutability`, `LedgerRuns`, `Store`, `Scenarios`, `Thresholds`).
  Tables are finite maps under their unique keys; `Store.Store` holds them as mutable fields beside a
  ghost history of committed ingests, and its methods perform the service's statements one by one.
  `Columns` says what each query finds and what each new row holds, column by column and apart from the
  specification's own predicates, and the methods promise that. `LedgerRuns` proves what every state of every
  run keeps; rules enter a run by schedules of the activation protocol. `Scenarios` and `Thresholds` build runs from the empty store that reach the
  failures and the gaps reported below.
- **Ranked selection** (`Ranking`, `Paging`, `SearchWalks`). Filter then top-k, and keyset pagination
  with a probe for one more row, while the tables grow between requests.
- **Text forms** (`Text`, `Utf8`, `Json`, `Numerals`, `Uuids`, `SourceScope`, `Alerts`). White space
  collapsing, the JSON array behind the match key (sections 5 and 7 of RFC 8259), UUID text
  (section 4 of RFC 9562) and source filters.
- **Query analysis and embeddings** (`Sequences`, `Dedup`, `Runs`, `QueryAnalysis`, `QueryInputs`, `Vectors`,
  `Centroid`, `CentroidProof`, `ProviderResponse`). Stateful loops with early exits against
  declarative definitions; the weighted centroid over the reals.

## Assumptions

- SHA-256 is an injective function of the hashed bytes (`MatchKeys.Injective`). Everything that feeds
  it is proved injective.
- The distance of two vectors is a given real between 0 and 2; the cast to `f32` is any monotone
  function that fixes its own results (`Evaluation.Rounding`), and zero and one where that matters
  (`Thresholds.Casts`); `sqrt` is the real square root.
- Identifiers drawn at random are parameters, required to be unused where uniqueness matters.
- Unicode's letter classes and the limits `MAX_EMBEDDING_INPUTS` and `MAX_EMBEDDING_INPUT_CHARS`
  are parameters.
- Sessions that publish rules store source filters in normal form, as `create_alert_rule` does, and thresholds
  that fix under the cast to `f32`.
- Worker routes set no request context and act as the role that bypasses row level security.
- A UUID is a number below 2 to the 128; an `f32` in a vector is its bit pattern. A foreign key is the
  natural unique key of the row it points to.

## What was found

- Migration 007 says that every client path shares the ten-search limit. That holds for every
  interleaving of `create_alert_rule` transactions, both for the rules the trigger counts
  (`ActivationProof.CreationLimit`) and for those any request is shown as enabled and active
  (`ActivationScope.CreationShownLimit`). For the modelled statements in any other combination it fails in
  three ways.
  - A pointer is moved to a revision that another session commits between the trigger's read and the
    foreign key check: from any idle state such an activation goes through uncounted
    (`ActivationRuns.UnseenTargetIsNotCounted`), and a run with eleven active searches exists
    (`ActivationRuns.LimitNeedsSeenTargets`). If the trigger sees the revision it reads, also one committed
    while the update waited for the lock, at most ten rules per owner point to an enabled revision of their
    own (`ActivationProof.ActiveLimit`).
  - A pointer is moved to an enabled revision of another rule of the tenant. The trigger does not count
    such a rule, but the listing joins it and shows it to every request that may see both rules
    (`ActivationScope.BorrowedTargetIsNotCounted`): an owner is shown eleven rules while ten are counted
    (`ActivationScope.ShownLimitNeedsOwnTargets`). For the owner and for administrators the two notions agree
    exactly when no pointer of the owner is on an enabled revision of another rule they may see
    (`ActivationScope.ShownIsCountedIff`). If pointers stay within their rules, the limit holds for what any
    request is shown (`ActivationScope.ShownLimit`).
  - An administrator gives a rule to another owner. The policies allow it, and the trigger watches the
    pointer only (`ActivationScope.OwnerChangeIsNotCounted`, `ActivationScope.LimitNeedsFixedOwners`).
- The evidence trigger freezes every modelled column of a candidate except its identifier, its status and
  its update time (`Immutability.CandidateUpdateAdmittedIff`): an update that only moves the identifier to
  an unused one is admitted.
- Page revisions and page embeddings have no trigger. A direct update of either goes through, and exactly
  those statements break what every other step keeps (`Immutability.MutationEvolvesIff`,
  `LedgerRuns.RewriteFitsNoHistory`). Only the deletion of a page embedding that a candidate cites is
  rejected, by the candidate's trigger.
- The match key has neither the mode nor the page vector. A match already recorded by the other mode or
  for another page vector makes a write fail (`LedgerProof.IngestFailsIff`,
  `Evaluation.EvaluateMatchesMeaning`): a conflict in the reverse path, an internal error in the
  historical one, where candidates written before it stay. Runs from the empty store end in each of them
  (`Scenarios.SecondVectorConflicts`, `Scenarios.EvaluationMeetsReverseMatch`).
- A threshold stored with a rule survives the cast to `f32`; one raised by the caller may be lowered by it.
  New candidates meet the composed threshold in every store exactly when the cast does not lower it or the
  minimum similarity covers it (`Thresholds.WritesKeepIff`). The 64-bit value nearest to 0.7 is lowered: a
  candidate is written below the threshold recorded in it (`Thresholds.SevenTenthsIsLowered`).
- A match that is already recorded is returned with the similarity of the query that recorded it. So what an
  evaluation returns meets a caller's threshold in every store exactly when it is no higher than the one
  stored with the rule, or the minimum similarity rules out every page (`Thresholds.ReturnsKeepIff`).
- A provider response with two items for one index is always rejected, but which error it gets may depend on
  their order (`ProviderResponse.RejectionMayDependOnOrder`); `ProviderResponse.OrderDependentIff` says exactly
  when.

## Model

| member | source | states |
|---|---|---|
| Activation.FilteredCountIsTrueCount | migrations/004_durable_alert_rules_and_authz.sql:90-135 | For a session that may write a rule, the row-level-security view of the trigger's queries is the true state: the counted rules are the owner's other enabled active rules, and the new revision reads as enabled exactly when it is |
| ActivationProof.NextKeepsInv | migrations/007_active_alert_limit.sql:12-52 | Every statement of every session, including each step inside the trigger, commit and rollback, keeps the inductive invariant that ties locks, private rows, counts and the limit together |
| ActivationProof.ActiveLimit | migrations/007_active_alert_limit.sql:1-59 | In every run from the empty database, for any number of sessions, any aborts and any lock hash, the committed state has at most ten rules per tenant and owner that point to an enabled revision of their own, provided the trigger sees the revision it reads and owners do not change |
| ActivationProof.CreationLimit | src/alert_store.rs:86-221 | The same limit with no condition on visibility when every session activates only revisions it inserted itself, as rule creation does |
| ActivationProof.RunEvolves | migrations/004_durable_alert_rules_and_authz.sql:69-83 | Over any run of the modelled statements, whatever their targets see, committed rule revisions never change, and rows laid over committed rules by concurrent sessions keep each rule with its tenant and owner |
| ActivationRuns.CreationSucceedsBelowLimit | src/alert_store.rs:96-221 | A creation alone on the database commits its rule, revision and pointer exactly when the revision is disabled or the owner is below ten; otherwise it never gets to commit |
| ActivationRuns.LimitIsReached | migrations/007_active_alert_limit.sql:45-49 | Ten is attained: for any owner and any number up to ten a run exists that ends with that many active rules |
| ActivationRuns.EleventhIsRefused | migrations/007_active_alert_limit.sql:45-49 | With ten active rules the creation of another enabled one cannot complete |
| ActivationRuns.UnseenTargetIsNotCounted | migrations/007_active_alert_limit.sql:22-31 | From any idle state, an activation whose target revision another session commits after the trigger's read completes and adds an active rule without being counted |
| ActivationRuns.LimitNeedsSeenTargets | migrations/007_active_alert_limit.sql:1-3 | A concrete run in which such an activation leaves an owner with eleven active rules |
| ActivationScope.ShownIsCountedIff | src/alert_store.rs:12-47 | Under row level security, a request that may see an owner's rules is shown every counted one as enabled and active, and no other exactly when no pointer of the owner is on an enabled revision of another rule the request may see; any other request is shown none |
| ActivationScope.ShownLimit | src/alert_store.rs:12-84 | In every run from the empty database whose triggers read a seen revision of the pointer's own rule, no request is shown more than ten rules of an owner as enabled and active, and the owner and administrators are shown exactly the counted ones |
| ActivationScope.CreationShownLimit | src/alert_store.rs:86-221 | The same for any interleaving of sessions that activate only revisions they inserted for the same rule, as rule creation does |
| ActivationScope.BorrowedTargetIsNotCounted | migrations/004_durable_alert_rules_and_authz.sql:114-135 | From any idle state a rule without an enabled revision can be moved to an enabled revision of another rule of the tenant; the counted rules are the same, and exactly the requests that may see both rules are then shown it as enabled and active |
| ActivationScope.ShownLimitNeedsOwnTargets | migrations/007_active_alert_limit.sql:1-3 | A concrete run in which every trigger sees the revision it reads ends with eleven rules shown to their owner and ten counted |
| ActivationScope.OwnerChangeIsNotCounted | migrations/004_durable_alert_rules_and_authz.sql:90-112 | A rule is given to another owner exactly if an administrator of its tenant asks, and an active one then adds to the new owner's active rules unchecked |
| ActivationScope.LimitNeedsFixedOwners | migrations/007_active_alert_limit.sql:55-61 | A concrete run after which one such change leaves an owner with eleven active rules |
| Sessions.Database.Step | src/alert_store.rs:96-97 | One statement of one session changes the shared state exactly as the protocol says, or not at all if it is not possible now, and keeps the invariant |
| Sessions.Database.Judge | migrations/007_active_alert_limit.sql:22-52 | With other sessions committing between its queries, the trigger passes exactly when the revision is disabled or fewer than ten of the owner's other rules were active in the state its count ran in, a state on the run from the start; the session's own statements are the trigger's, in order |
| Sessions.Database.CreateAlertRule | src/alert_store.rs:86-221 | Creation runs its statements in order among those of others and publishes its rule and revision over what the others had committed, or stops where its next statement is not possible, rolls back and publishes nothing; it is refused only for its owner's length or an identifier in use, times out only while another session holds the owner's lock, commits an enabled rule only if fewer than ten others were active at its count and reports the limit only if ten were; earlier committed rows persist |
| Sessions.AloneSucceedsIff | src/alert_store.rs:96-221 | A creation that meets no other session on an idle database commits its rule with its revision active exactly when the revision is disabled or the owner is below ten, and otherwise leaves the database as it was |
| MatchKeys.MatchKeyIdentifies | src/reverse_match.rs:697-724 | Two match identities have the same key exactly when they are the same identity |
| MatchKeys.MatchKeyReads | src/reverse_match.rs:709-724 | The hashed bytes read back, field by field in the written order, as the identity |
| MatchKeys.FieldsInjective | src/store.rs:670-681 | The nine text fields determine the identity: UUID text, decimal text and normalization names are injective |
| MatchKeys.EmbeddingSha | src/reverse_match.rs:688-695 | Feeding the digest value by value hashes the canonical fixed-width bytes of the whole vector |
| MatchKeys.BytesOfVector | src/reverse_match.rs:690-693 | Each value contributes its bit pattern in four bytes, most significant first, and a zero of either sign contributes zeros |
| MatchKeys.FingerprintIdentifies | src/reverse_match.rs:688-695 | Two vectors share a fingerprint exactly when they have the same length and agree but for the sign of zeros |
| Json.DecodeOfArray | src/reverse_match.rs:721-722 | A reader recovers any list of strings from the JSON array written for it |
| Utf8.DecodeOfEncode | src/reverse_match.rs:726-728 | The bytes of a text determine the text |
| Uuids.ParseOfText | src/source_scope.rs:89-90 | The lower-case hyphenated text of a UUID parses back to it |
| Uuids.TextOrder | src/source_scope.rs:50-52 | The order of UUIDs is the order of their text, both ways |
| Uuids.ByteOrder | src/source_scope.rs:47-52 | The smaller UUID is smaller at the first byte where the two differ |
| Text.SplitOfJoin | crates/query/src/lib.rs:110-112 | Splitting a join of words at white space gives the words back |
| Text.CollapseIdentifiesWords | src/reverse_match.rs:671-673 | Two texts collapse to the same text exactly when they have the same words |
| Text.CollapseIdempotent | src/alerts.rs:49 | Collapsing twice is collapsing once |
| Text.TrimKeeps | src/alerts.rs:48 | Trimming takes white space off both ends and nothing else |
| SourceScope.NormalizeKeepsIds | src/source_scope.rs:29-36 | Normalising filters keeps the set of sources, and normalising again changes nothing |
| SourceScope.NormalizeAscending | src/source_scope.rs:29-53 | Normal filters are strictly ascending, as identifiers and as strings |
| SourceScope.ConstrainMeaning | src/source_scope.rs:55-82 | A request is accepted exactly when the rule has no scope or the request lies inside it; the result is the request, or the rule's scope if the request is empty, and never empty under a nonempty scope |
| SourceScope.TextTestMatchesNarrowing | src/reverse_match.rs:505-508 | The stored text test of the reverse path admits a source exactly when narrowing a search to that source succeeds |
| Alerts.NormalizedIdempotent | src/alerts.rs:46-60 | Normalising a normalised rule returns it unchanged |
| Alerts.NormalizedIff | src/alerts.rs:46-97 | A rule is accepted exactly for a trimmed name and model within their byte lengths, a collapsed query of 3 to 700 characters, a threshold from 0 to 1, at most 100 filters that all parse, and at most 32 distinct trimmed channels within their length |
| Alerts.NormalizedKeeps | src/alerts.rs:46-60 | Normalising only trims name and model, collapses the query, keeps the set of sources, sorts the trimmed channels without repetition, and leaves threshold and switch |
| Alerts.NormalizedFitsSchema | migrations/004_durable_alert_rules_and_authz.sql:21-34 | A normalised rule satisfies the length, count and range constraints of the revision table |
| Alerts.CreateAlertRule.Normalize | src/alerts.rs:47-60 | Rewriting the fields one by one ends in the specified normal value, or reports the specified problem |
| Alerts.CreateAlertRule.NormalizeChannels | src/alerts.rs:99-111 | Trimming each channel in place, sorting and removing duplicates gives the specified list, whose count is checked only then |
| Ranking.SelectIsTop | src/reverse_match.rs:509-510 | Ordered selection returns qualifying rows in strictly ascending rank, all of them if they fit, and no row left out precedes one returned |
| Ranking.TopUnique | src/reverse_match.rs:509-510 | That description fits only one answer |
| Ranking.SelectIgnoresOthers | src/reverse_match.rs:496-510 | The answer depends only on the set of qualifying rows: others use no slot, and storage order is irrelevant |
| Paging.FetchSplits | src/store.rs:494-506 | A page is the first rows after the cursor; it has a next cursor exactly when more rows remain, and that is the rank of its last row |
| Paging.NextRemaining | src/store.rs:411-418 | The rows after the next cursor are exactly those the page did not show |
| Paging.WalkCoversGrowingTable | src/store.rs:411-506 | Following the cursor while rows are only added returns rows in strictly ascending order, every row present at the first fetch, and only rows present at the last |
| Paging.FixedTableWalk | src/store.rs:482-506 | On an unchanging table the pages concatenate to the sorted table and the walk ends after the number of pages that many rows fill |
| Paging.PageCountIsCeiling | src/store.rs:423-424 | That number is the ceiling of rows over limit, and one for no rows |
| Columns.SearchFindsSought | src/store.rs:433-512 | The specified search page is exactly the page described column by column in the contract of `SearchEmbeddings` |
| SearchWalks.SearchIsWalk | src/store.rs:411-513 | Repeating the search with the cursor of the response before is walking the rows in scope page by page |
| SearchWalks.FollowingTheCursorCovers | src/store.rs:411-513 | Through any run of the store, following the cursor returns no row twice, every row in scope at the first request and only rows in scope at the last |
| SearchWalks.FollowingTheCursorShows | src/store.rs:411-512 | The same in the caller's terms: through any run of the store, the hits shown ascend by distance and identifier, include every embedding sought at the first request, and are all sought at the last |
| SearchWalks.FixedStorePages | src/store.rs:482-506 | On an unchanging store the pages from the start are the rows in scope, sorted, in the fewest requests |
| Store.Store.UpsertPageRevision | src/reverse_match.rs:326-456 | Exactly one page row is touched or created and points to the revision of the request's content afterwards; a new content adds exactly one revision, which holds the request's columns and points back to the page's latest revision before; a known content adds none; the receipt names both and says whether the content was new |
| Store.Store.PersistReverseCandidate | src/reverse_match.rs:520-648 | A selected match is refused, with a conflict and no change, exactly when the other mode or another page vector holds its key; otherwise its candidate is stored with its evidence and returned, only its key is added, pending, with the similarity and the rule's stored threshold, and the ledger invariant stays |
| Store.Store.IngestAndReverseMatch | src/reverse_match.rs:249-324 | The transaction fails exactly when a selected match is blocked and then leaves the store as it was; otherwise the selection is the nearest wanted embeddings, every row added is the pending row of a selected one, each selected match is returned in order from the row under its key, the visit enters the history, and `changed` says whether its content was new; the store stays valid |
| Store.Store.UpsertAlertRuleEmbedding | src/reverse_match.rs:128-247 | It succeeds exactly for the enabled active revision of a rule of the tenant for the embedding's model, with an empty slot or one that holds the same vector up to signed zeros; afterwards the slot holds that vector and the receipt names its row; a filled slot is not written; the store stays valid |
| Store.Store.SearchEmbeddings | src/store.rs:411-512 | The page has, in order of distance and identifier, the nearest embeddings after the cursor that are in the request's tenant and model space, of a stored revision and page, from a requested source if any, and at the minimum similarity; one is left out only if the page is full of nearer ones; there is a next cursor, at the last row, exactly when one is left out, and all those come after it |
| Store.Store.EvaluateMatches | src/store.rs:515-622 | Raising the minimum similarity, searching once and writing hit by hit, with earlier rows kept on failure, is the specified evaluation |
| Store.Store.EvaluateRoute | src/server_routes.rs:266-326 | A request that is not acceptable changes nothing; an acceptable one searches the nearest rows in the rule's scope that reach the request's similarity and the cast of the higher threshold, adds only pending historical candidates of those, with the composed threshold, fails internally exactly when the reverse path holds one of them, and otherwise returns for each, in order, the row under its key; the store stays valid |
| Store.Store.Change | migrations/006_reverse_alert_hot_path.sql:180-212 | Of a candidate a direct statement moves the identifier, the status and the update time only, and deletes none; the store stays valid and what never changes has not changed, unless a page revision or embedding is rewritten |
| PageHistory.IngestKeepsHistory | src/reverse_match.rs:334-456 | A committed ingest extends the history by its normalised content, a failed one leaves it; in both cases pages, revisions and predecessor trees match the history |
| PageHistory.AddToTree | src/reverse_match.rs:376-405 | A new revision under the page's latest keeps the page's revisions one tree with one root and links inside the page |
| PageHistory.LatestIsLastCommitted | src/reverse_match.rs:435-453 | The latest pointer is on a revision of the page with the content of its last committed ingest, also when that content had been seen before |
| PageHistory.PredecessorIsPreviousContent | src/reverse_match.rs:376-405 | Over the history of ingests: where a content was first committed for a page, its revision points back to the revision of the content committed for that page just before, or to none if there was none |
| PageHistory.OneRevisionPerContent | migrations/002_domain_scoped_indexing.sql:87-103 | Revisions of a page correspond one to one to the distinct normalised contents ever committed for it |
| PageHistory.ChangedMeansNewContent | src/reverse_match.rs:407-425 | An ingest reports a change exactly when its content is new to the page, and names the revision with that content |
| Columns.SelectionIsNearest | src/reverse_match.rs:476-517 | Where stored filters are normal, an ingest selects exactly the embeddings of the request's tenant and model space that belong to the enabled active revision of a rule of the tenant for that model, whose filters narrow to the page's source and whose similarity reaches the stored threshold, in order of distance and identifier; one is left out only if as many nearer ones as allowed are selected |
| Columns.TargetServes | src/reverse_match.rs:156-168 | An embedding may be stored exactly for a revision that is enabled, active and of its rule as the activation limit counts it, in the caller's tenant and for the embedding's model |
| LedgerProof.FindCandidatesPrefix | src/reverse_match.rs:509-510 | Raising the candidate limit by one only appends to the answer |
| LedgerProof.OneCandidatePerIdentity | migrations/002_domain_scoped_indexing.sql:134-150 | Across both match modes two ledger rows have the same logical identity exactly when they are the same row |
| LedgerProof.ExistingReverseRow | src/reverse_match.rs:607-628 | A row under the key of a reverse match has the same evidence exactly when it is of the reverse mode and for the same page vector fingerprint |
| LedgerProof.PersistAllPersists | src/reverse_match.rs:270-314 | After a successful loop every selected embedding has its candidate stored and returned in order, earlier candidates are unchanged, and no other was added |
| LedgerProof.PersistAllFailsIff | src/reverse_match.rs:301-313 | The loop fails, with a conflict, exactly when some selected match was blocked before the loop started |
| LedgerProof.IngestFailsIff | src/reverse_match.rs:249-324 | An ingest fails exactly when a selected match is already recorded by the other mode or for another page vector; then every table is as before, and the ledger invariant holds either way |
| Columns.IngestWritesColumns | src/reverse_match.rs:249-324 | A successful ingest writes the page rows, selects the nearest wanted embeddings, adds only the pending rows of those, with both vectors as evidence, and answers with the rows under their keys |
| LedgerProof.BlockedMeansOtherVector | src/reverse_match.rs:613-619 | A reverse row blocks a write exactly when its page vector differs beyond the sign of zeros |
| LedgerProof.OtherVectorConflicts | src/reverse_match.rs:607-628 | After a successful ingest, the same page and content with another vector conflicts as soon as one embedding is selected again |
| LedgerProof.ReplayIsIdempotent | src/reverse_match.rs:249-324 | Replaying a successful ingest returns the same page, revision and candidates in the same order with `changed` false, and leaves every table as it is |
| RuleEmbeddings.UpsertSucceedsIff | src/reverse_match.rs:151-246 | A call succeeds exactly when it targets the enabled active revision under its configured model and its slot is empty or holds the same vector up to signed zeros; it writes only an empty slot |
| RuleEmbeddings.UpsertEmbeddingKeepsInv | migrations/006_reverse_alert_hot_path.sql:9-37 | An upsert keeps slots and identifiers unique, fingerprints true and every candidate's evidence stored |
| Evaluation.HitsRespectRule | src/server_routes.rs:305-314 | Every row an accepted evaluation may write is in scope and at least at the rule revision's stored threshold, despite the cast to f32 |
| Evaluation.HitsStayInScope | src/server_routes.rs:298-302 | Every row is inside the rule's nonempty scope and among the requested sources if any were requested |
| Evaluation.HistoricalWrite | src/store.rs:566-617 | A historical write fails exactly when the reverse path already recorded the match, and otherwise returns a candidate at or above the stored threshold and keeps the ledger invariant |
| Evaluation.PlannedIff | src/server_routes.rs:266-302 | An evaluation is carried out exactly for a threshold in range, a rule the caller can load that is enabled for the searched model, and requested sources within its scope; only a rule that cannot be loaded is reported as missing |
| Evaluation.EvaluateMatchesMeaning | src/store.rs:515-622 | An evaluation only adds historical candidates, keeps the ledger invariant, returns one candidate per hit at or above the stored threshold, and after planning fails, internally, exactly when a hit is held by the reverse path |
| Columns.EvaluationWritesColumns | src/store.rs:515-622 | An accepted evaluation records its hits in order: every row it adds is the pending historical row of a hit, with the page embedding as evidence and the composed threshold, also when it fails; each answer holds the row under its key |
| Thresholds.WritesKeepIff | src/store.rs:523 | For a composed threshold and a minimum similarity, every candidate an evaluation adds reaches the threshold, in every reachable store under every distance, exactly when the cast does not lower it or the minimum similarity covers it |
| Thresholds.SevenTenthsIsLowered | src/store.rs:523 | A run from the empty store under rounding to the nearest multiple of 2 to the -24, which is the cast on one half to one: a caller who asks for the 64-bit 0.7 is given a new candidate of lower similarity |
| Thresholds.ReturnsKeepIff | src/store.rs:566-617 | Every candidate an evaluation returns reaches the composed threshold, in every reachable store under every distance, exactly when the caller asks for no more than the rule stores, or for a minimum similarity above one |
| Thresholds.EarlierRowIsReturned | src/store.rs:594-608 | A run from the empty store in which an evaluation returns a row recorded by an earlier query, below the threshold asked for |
| Scenarios.SecondVectorConflicts | src/reverse_match.rs:607-628 | A run from the empty store in which the same content with another matching vector is a conflict |
| Scenarios.EvaluationMeetsReverseMatch | src/store.rs:566-617 | A run from the empty store in which an evaluation that finds the page ends in an internal error |
| Immutability.CandidateUpdateAdmittedIff | migrations/006_reverse_alert_hot_path.sql:189-210 | An update of a candidate is admitted exactly when it moves nothing but its identifier, to an unused one, its status and its update time |
| Immutability.MutationEvolvesIff | migrations/006_reverse_alert_hot_path.sql:57-75 | An admitted direct statement leaves every match with its evidence and scores, every rule revision, rule embedding, page revision and page embedding as it was exactly when it does not rewrite one of the last two, which no trigger protects |
| Immutability.EvolvesTransitive | migrations/005_revision_bound_match_identity.sql:46-82 | What one state keeps of another and that of a third, it keeps of the third |
| LedgerRuns.StepKeepsInv | src/reverse_match.rs:128-456 | Every step of the store keeps the ledger, embedding, threshold and page history invariants |
| LedgerRuns.RunKeepsInv | src/store.rs:515-622 | Every state of every run satisfies those invariants |
| LedgerRuns.PublishedTables | src/alert_store.rs:86-221 | Rules published by any schedule of sessions reach the matching side as the protocol committed them, and no published revision changes |
| LedgerRuns.ShownIsLoaded | src/alert_store.rs:49-84 | The evaluation route loads a rule exactly when both policies show it with its active revision; a request is shown a rule as enabled and active exactly when the route loads the rule for it and finds it enabled |
| LedgerRuns.RunEvolves | migrations/005_revision_bound_match_identity.sql:73-82 | Between any two states of a run of service operations, activation schedules and direct statements on protected tables, every candidate keeps its match, evidence and scores, and rules, rule revisions, page revisions and embeddings persist |
| LedgerRuns.RewriteFitsNoHistory | migrations/002_domain_scoped_indexing.sql:87-103 | After a direct update of a page revision's content some history of ingests explains the revisions exactly when the content is the same |
| LedgerRuns.ReachableFits | src/reverse_match.rs:249-456 | Every store a run leads to from the empty tables satisfies the ledger, embedding, threshold and page history invariants |
| LedgerRuns.FirstWriterWins | src/reverse_match.rs:151-246 | After a call created a slot's embedding no later call of the run creates it again; a later call succeeds exactly when it targets the enabled active revision with the same vector up to signed zeros, and returns the first identifier |
| LedgerRuns.MatchStands | migrations/002_domain_scoped_indexing.sql:134-150 | A recorded match stands at every later time under its key with the same evidence and scores, and no other row ever has its identity |
| LedgerRuns.PendingUntilUpdated | migrations/002_domain_scoped_indexing.sql:143-146 | A candidate that a run adds is pending in every later state until a direct statement of the run updates it |
| LedgerRuns.EmbeddingsServeAlongRun | migrations/006_reverse_alert_hot_path.sql:9-37 | In every state of a run every rule embedding belongs to an enabled revision of its rule and tenant, configured for its model |
| LedgerRuns.LatestAlongRun | src/reverse_match.rs:435-453 | In every state of a run each page's revisions form a tree and its latest revision has the content of its last committed ingest |
| Dedup.DedupPicksFirsts | crates/query/src/lib.rs:115-130 | Collecting with a set of seen keys picks exactly the first element of every key, in order |
| Runs.SpansAreMaximalRuns | crates/query/src/lib.rs:139-152 | The scan finds exactly the maximal runs of flagged positions, in order |
| Runs.MaximalRunsUnique | crates/query/src/lib.rs:139-152 | There is only one such list |
| QueryAnalysis.KeywordFormMeaning | crates/query/src/lib.rs:117-124 | A text is a keyword form exactly when it is the lower case of a token, has at least three characters and is no stop word |
| QueryAnalysis.CleaningKeeps | crates/query/src/lib.rs:185-191 | Cleaning takes from both ends of a word exactly what is no letter, digit, hyphen or underscore |
| QueryAnalysis.KeywordsMeaning | crates/query/src/lib.rs:114-131 | The keywords are the first 24 first occurrences among the keyword forms |
| QueryAnalysis.ExtractKeywords | crates/query/src/lib.rs:114-131 | The loop with its early exit returns those keywords |
| QueryAnalysis.FlushKeeps | crates/query/src/lib.rs:157-168 | A flush keeps the output the first distinct phrases of the runs flushed so far, up to ASCII case and the limit |
| QueryAnalysis.ScanWords | crates/query/src/lib.rs:139-151 | When the scan stops early no run is open and the output is already the result; otherwise the open run and the flushed phrases are those of all words |
| QueryAnalysis.ExtractEntities | crates/query/src/lib.rs:133-155 | The scan, the last flush and the truncation return the first 12 distinct phrases of runs |
| QueryAnalysis.EntitiesOfMaximalRuns | crates/query/src/lib.rs:133-155 | Those runs are the maximal runs of entity words, an instruction word at position 0 excepted |
| QueryInputs.PushAll | crates/query/src/lib.rs:47-108 | Pushing a list of texts appends them all with consecutive ordinals, or is refused exactly when they do not all fit |
| QueryInputs.AnalyzeQuery | crates/query/src/lib.rs:33-81 | The pushes build the specified views, or the first problem is reported |
| QueryInputs.InputsOfViews | crates/query/src/lib.rs:47-70 | A successful analysis has the collapsed query at ordinal 0 with weight 1.2, then each keyword in order with weight 0.6, then each entity in order with weight 0.9, and nothing else |
| QueryInputs.KeywordsOfViews | crates/query/src/lib.rs:114-131 | Every keyword is a lower-case token of at least three characters outside the written list of stop words; with fewer than 24 keywords every such token is one |
| QueryInputs.EntityWordsOfQuery | crates/query/src/lib.rs:133-212 | A word can be part of an entity exactly if it starts in upper case, goes on with some lower case and is not all upper case, the written instruction words at the start of the query excepted |
| QueryInputs.TokensFit | crates/query/src/lib.rs:170-191 | Consecutive tokens of a collapsed query, joined, have at least one character and no more than the query |
| QueryInputs.AnalysisFitsSchema | migrations/003_semantic_embedding_inputs.sql:52-62 | With room for 37 inputs an analysis fails only on a query too short or too long; otherwise its inputs number at most 37, with ordinals in order, texts between one character and the query's length, admissible weights, and no repeated kind and text |
| QueryInputs.SpacingIsIrrelevant | crates/query/src/lib.rs:33-43 | Queries with the same words have the same analysis |
| Vectors.DotWithUnit | src/query_embedding.rs:292-307 | The Cauchy-Schwarz inequality against a unit vector |
| Vectors.UnitOfScale | src/query_embedding.rs:292-307 | A vector and its positive multiples normalise to one vector |
| Centroid.WeightedCentroid | src/query_embedding.rs:270-336 | The loops over an accumulator array compute the specified centroid, component by component cast, or the first problem in input order |
| Centroid.Accumulate | src/query_embedding.rs:304-308 | One pass adds exactly an item's normalised, weighted components to the accumulator |
| CentroidProof.MeanWithinUnitBall | src/query_embedding.rs:304-324 | The weighted mean of normalised vectors has norm at most one |
| CentroidProof.CentroidHasNormOne | src/query_embedding.rs:320-335 | The centroid has norm exactly one before the cast |
| CentroidProof.CentroidPointsAlongSum | src/query_embedding.rs:304-335 | The centroid is a positive multiple of the weighted sum of the unit vectors |
| CentroidProof.CentroidOfOne | src/query_embedding.rs:304-335 | A single input above the weight guard gives the unit vector of its own vector |
| CentroidProof.CentroidExistsIff | src/query_embedding.rs:275-330 | There is a centroid exactly if there are dimensions, every vector has them and is longer than epsilon, the weights add up to more than epsilon, and the weighted sum of unit vectors is longer than epsilon times their total |
| CentroidProof.CentroidIgnoresLengths | src/query_embedding.rs:292-307 | Rescaling input vectors by positive factors changes nothing while they pass the zero guard |
| CentroidProof.CentroidIgnoresWeightUnit | src/query_embedding.rs:304-319 | A common positive factor on the weights changes nothing while both totals pass the weight guard |
| CentroidProof.CentroidIgnoresOrder | src/query_embedding.rs:284-309 | Reordering the inputs with their vectors changes neither success nor the centroid |
| ProviderResponse.CollectVectors | src/query_embedding.rs:113-139 | Sorting, counting and validating in order gives the specified vectors or the first problem |
| ProviderResponse.AcceptedIff | src/query_embedding.rs:113-139 | A response is accepted exactly when its indices are a permutation of the inputs' positions and every vector is valid |
| ProviderResponse.VectorsLineUp | src/query_embedding.rs:126-139 | In an accepted response the vector at a position holds the values of the item with that index |
| ProviderResponse.AcceptanceIgnoresOrder | src/query_embedding.rs:113-139 | Acceptance and the accepted vectors do not depend on the order of the response items |
| ProviderResponse.OrderDependentIff | src/query_embedding.rs:113-139 | Some reordering of a response changes its result exactly when the count is right, every earlier index is claimed once by a valid item, and two items that claim the next index would be rejected differently |
| ProviderResponse.RejectionMayDependOnOrder | src/query_embedding.rs:129-137 | With two items for one index, their order decides which error is reported |
| ProviderResponse.OnlyCollapseFails | src/query_embedding.rs:113-140 | After an accepted response with weights of at least 0.1, aggregation fails only by collapse of the weighted mean |

## Left out

- The single-statement `ingest_page` in src/store.rs: it reads and writes one page row inside one PostgreSQL statement, so the two-statement claims do not carry over; page embeddings arrive by an insert-if-absent step under their unique key instead.
- Concurrency of ingests, embedding upserts and evaluations: each is one step of a run. Ingests of one page serialise on its row; interleavings of different operations inside one another are modelled only for rule activation.
- Deletion of sources, pages and page revisions, and the cascades from them: no code in the repository performs it.
- Direct updates of pages, and direct updates that move the key or identifier of a page revision or embedding: only a new content, a new vector and the deletion of an embedding are modelled. Runs contain direct statements except those that rewrite page revisions or embeddings.
- A change of a rule's owner inside the activation protocol: it is one statement on committed tables.
- Columns that no property depends on: content type, HTTP status, publication time, creation times, score explanations, the revision number and the display columns of a rule. `first_seen_at` and `last_seen_at` are kept; the latter is overwritten and may go backwards.
- Candidates from before migration 005 without a rule revision.
- `vector_literal` and pgvector: a distance is a given real per pair of vectors, and NaN and zero vectors do not occur in it.
- Floating-point rounding inside the centroid: arithmetic is over the reals, and only the final cast is a parameter.
- Validation in the `eal-interfaces` and `eal-semantic-contracts` crates: they are not part of this model. Search limits of at least one are a precondition where a walk must advance.
- `list_alert_rules` and the rest of `get_alert_rule`: ordinary reads under the modelled row level security; only the part the evaluation route needs is modelled.
- Authentication, cookies, worker tokens, URL canonicalisation, routing, web sockets, event publication, configuration, the crawl queue and the migration runner: plumbing or foreign code with small checks of their own.
- ActivationProof.ActiveLimit: requires that the trigger sees the revision it reads; that the limit can fail otherwise is shown, but a run in which it fails to see one need not exceed the limit. No event of the protocol changes an owner.
- Other isolation levels than READ COMMITTED, and single statements that write several of the modelled tables, such as a WITH that inserts a revision and moves a pointer to it.
- ActivationScope.ShownLimit: requires that triggers read revisions of the pointer's own rule; state by state the condition is exact, but a run that violates it need not exceed the limit.
- Thresholds.SevenTenthsIsLowered: the rounding is that of the cast between one half and one; below one half the cast is finer.
- Sessions.Database.CreateAlertRule: the final read-back of the created rule is not modelled.
- Immutability.CandidateUpdateAdmittedIff: score explanation and creation time, which the trigger freezes too, are not modelled columns; nor are rows in other tables that refer to a candidate by identifier.
