# Verified model of the declarative conversion operator

Dafny 4.11 models of the operator's and convctl's core logic, each proved against what the
code and its documentation promise. `dafny verify dfyconfig.toml` checks the whole project.

## What is modelled

- **Hub promotion** (`Rules`, `Invert`, `Engine`, `HubPaths`, `Rehub`, `Conversion`,
  `RehubMeaning`, `RehubTheorem`, `RehubExactly`, `RehubWhole`, `RehubExamples`). Conversion
  rules are the syntax of `api/v1alpha1/rehub.go`. Their meaning is what `pkg/engine` compiles them to: one
  operation each way between a hub and a spoke schema. Promotion is a compiler pass over
  rules, and its central result is that no version-to-version conversion changes. The
  theorem covers configs whose other versions have rules that pair single fields (renames,
  coercions, enum maps, scales, quantities, durations, key renames and the list forms, any
  value operation) or account for a field of one side (`DefaultValue`, `Constant`, `Delete`),
  with or without a `When` guard, whose promoted version only renames fields of equal shape,
  and in which no single-path rule and no guard sits on a field that the promotion moves.
  `RehubExactly` says which promotions of pairing rules keep what the promoted version's objects
  convert to, `RehubWhole` adds the passthrough of undeclared fields, and `RehubExamples` has configs on
  which a promotion changes a conversion.
- **Server assignment** (`Ordering`, `Assign`), **event fan-out** (`Fanout`) and the **delete
  guard** (`DeleteGuard`, `DeleteGuardRuns`). Weighted rendezvous hashing over reals with an
  arbitrary positive base score per server and key; a hash that rounds to u = 1 is kept as a
  score of minus infinity.
- **Worker pools** (`WorkerPool`) as a step system with an explicit mutex, and three
  commands on top of it: the sample tester (`TestRun`, which runs on the tree diff in `Diff` and
  `DiffPaths`), the storage migration (`Migrate`, `MigrateSafety`) and the retargeting
  (`RetargetRuns`).
- **The migration planner** (`Planner`, `PlannerRuns`): the steps and the runs of "do the
  offered step, plan again".
- **Algorithms**: edit distance (`Levenshtein`) and greedy renames (`Suggest`), sampling
  (`Sampling`, `ReservoirSubsets`), the retarget merge patch (`Retarget`), the
  schema-driven generator (`Schema`, `Fuzz`). `Wrappers`, `Json` and `Float64`
  are shared data types.

## Where the code does not meet what it promises

Each is shown by a lemma, with the exact condition under which the promise does hold.

- `InvertRule` keeps `NumericScale.factor` although the rule means `hub = spoke * factor`
  (`api/v1alpha1/xrdconversionconfig_types.go:440-447`): only 1 and -1 survive, and 0, which
  the compiler rejects. A stash that is not restored, a label whose serialization is left out
  and a key rename that is not injective are not inverted either.
- Rewriting hub paths drags the spoke side of `TypeCoerce` and `EnumRemap` along, and does
  not touch the path of a `When` guard. A rewritten rule compiles to the original moved if and
  only if the promotion moves neither its one path nor its guard's (`RewrittenTieExactly`).
- The other versions are rewritten through paths alone, so promoting a version whose rules
  convert or guard a field changes what its objects convert to, as soon as another version
  converts that field too; only unguarded renames are safe (`PromotionPreservesExactly`).
  Nested `ForEach` rules are not rewritten at all, which is right if and only if no item field
  they name is moved (`NestedKeptExactly`).
- An undeclared field can get lost in a promotion that gives its name to a declared one;
  `RehubPreservesWholeObjects` says exactly when.
- The shard score of a hash that rounds to u = 1 is minus infinity
  (`internal/assign/shard.go:99-101`). A pool of such servers answers with no server, and its
  coming and going is the one change the fan-out does not see.
- `TargetPointsAt` is exact between dot-free names only
  (`internal/assign/assign.go:184-187` claims it always is); `PointsAtExactly` says when it is
  wrong. A dotted name can hold back the deletion of another server or be held back by one,
  through that one's namespace; it never releases one.
- A delete reconcile between the resolve and the write of an apply leaves the target pointed
  at a server that is gone.
- `retargetIsNoOp` does not see a ref that is present without being a map.
- The generator does not honour a negative `maximum` without `minimum`, `maxLength: 0`
  without `minLength`, or `minItems` without an item schema, and it panics on an integer range
  of 2^63 - 1 or more (`IntegerDrawExactly`).
- `valuesEqual` compares numbers as float64, so whole numbers beyond 2^53 that are not a
  float64 are taken for equal to a neighbour (`ComparedByValueExactly`).
- Different positions can render to one diff path. With non-empty keys that are free of dots
  and brackets they never do. A non-empty key is ambiguous if and only if it has an inner dot
  or ends in a bracketed index; an empty key at the top leaves no trace at all.

## Model

| member | source | states |
|---|---|---|
| `Invert.InvertRules` | api/v1alpha1/rehub.go:312-322 | the loop stops at the first rule that cannot be inverted and names its index; otherwise it yields each rule inverted, in order |
| `Invert.InvertTwice` | api/v1alpha1/rehub.go:33-309 | inverting a rule twice, at any ForEach nesting, restores it if and only if its key names are all listed paths, its renames are injective and its label serialization is written out and is not JSON |
| `Invert.InvertAllTwice` | api/v1alpha1/rehub.go:312-322 | the same for whole rule lists: inverting twice restores the list if and only if every rule in it is canonical |
| `Invert.ReverseTwice` | api/v1alpha1/rehub.go:33-309 | reversing a key-rename table twice gives it back if and only if no two keys share a new name |
| `Invert.KeyNamesKept` | api/v1alpha1/rehub.go:1014-1025 | key names survive two inversions if and only if each belongs to a listed path |
| `Engine.InvertSwapsDirections` | api/v1alpha1/rehub.go:33-309 | the inverted rule compiles to the original with hub-to-spoke and spoke-to-hub exchanged, for all schemas and at any nesting, if and only if the rule is reversible: restored stashes, stated label serialization, injective renames, no scale but its own reciprocal |
| `Engine.InvertedRuleMeaning` | api/v1alpha1/rehub.go:33-309 | the same for a whole rule with its When guard |
| `Engine.AllSwap` | api/v1alpha1/rehub.go:312-322 | a rule list inverts to the list with every compiled direction exchanged if and only if each rule is reversible |
| `Engine.ScaleInversionFails` | api/v1alpha1/rehub.go:244-251 | hub = 1024 * spoke inverts to a rule that divides where its meaning is to multiply |
| `Engine.StashInversionFails` | api/v1alpha1/rehub.go:96-107 | an annotation stash that is not restored inverts to a rule that restores it |
| `Engine.ScaleSwaps` | pkg/engine/compile.go:1315-1348 | a numeric scale keeps its two compiled directions under inversion if and only if its factor is 1 or -1, or 0, which the compiler rejects |
| `HubPaths.PathMapFromPromoteRules` | api/v1alpha1/rehub.go:383-398 | the loop over the promoted rules computes the path map, or the error of the first rule that has no pairs or conflicts with an earlier one |
| `HubPaths.PathMapSucceedsExactly` | api/v1alpha1/rehub.go:383-398 | a path map exists if and only if every rule yields its pairs and the pairs form a function, and then it is that function |
| `HubPaths.PathMapOrderFree` | api/v1alpha1/rehub.go:383-398 | neither success nor the map depends on the order or repetition of the rules |
| `HubPaths.KeptExactly` | api/v1alpha1/rehub.go:529-842 | rewriting a rule changes nothing if and only if the map moves none of its hub paths |
| `HubPaths.RewriteByEmpty` | api/v1alpha1/rehub.go:529-842 | rewriting by the empty map changes no rule |
| `HubPaths.RewriteCompose` | api/v1alpha1/rehub.go:529-842 | rewriting by one map and then another is rewriting by their composition |
| `HubPaths.RewriteSuccessIsStrategy` | api/v1alpha1/rehub.go:529-842 | whether a rule can be rewritten depends on its strategy, never on the map, and rewriting keeps it rewritable |
| `HubPaths.ClaimedSpokePathsKept` | api/v1alpha1/rehub.go:890-1005 | the claimed spoke paths survive a rewrite if and only if the rule is not a single-path rule on a remapped path |
| `Rehub.ComposeSpokeRules` | api/v1alpha1/rehub.go:848-888 | the spoke rules are rewritten in order and followed by a rename for every remapped field the rules did not claim and the spoke declares |
| `Rehub.RehubSpokes` | api/v1alpha1/rehub.go:329-379 | the whole promotion, or its error: unknown version, a rule that cannot be inverted, a path map conflict, a spoke that cannot be rewritten |
| `RehubMeaning.RewrittenTie` | api/v1alpha1/rehub.go:529-842 | rewriting a pairing or one-sided rule, guarded or not, moves the hub end of its correspondence and nothing else when the promotion moves none of the paths by which the rule names both sides |
| `RehubMeaning.RewrittenTieExactly` | api/v1alpha1/rehub.go:529-842 | the rewritten rule compiles to the original with its hub end and its hub-side guard moved, if and only if neither the one path of a single-path rule nor the path of its guard is moved |
| `RehubMeaning.MovedGuard` | api/v1alpha1/rehub.go:529-545 | a guard is carried over with its old path: the rewritten rule fails to compile when the new hub has no field of that name, and reads that field when it has |
| `Conversion.TieIsPlan` | pkg/engine/compile.go:269-315 | a correspondence with its guards is exactly the pair of operations the engine compiles the rule to |
| `RehubMeaning.PromotionMoves` | api/v1alpha1/rehub.go:383-398 | the path map of a promoted spoke of renames moves the old hub's leaves one-to-one onto the new hub's, keeping each leaf's shape |
| `RehubMeaning.RecomposedTies` | api/v1alpha1/rehub.go:848-888 | a recomposed spoke has exactly the correspondences it had before, guarded, one-sided and auto-covered ones included, with hub ends and hub-side guards moved |
| `RehubTheorem.RehubSucceeds` | api/v1alpha1/rehub.go:329-379 | promotion of a promotable version succeeds, with the old hub as a spoke and every other spoke kept |
| `RehubTheorem.RehubKeepsValid` | api/v1alpha1/rehub.go:329-379 | its output is a valid config again: every spoke still pairs off all leaves of the two versions |
| `RehubTheorem.RehubPreservesConversions` | api/v1alpha1/rehub.go:329-379 | for every pair of versions, both hubs included, and every object of declared fields, the rehubbed config converts to exactly what the original did, failures included; the other spokes may have guarded and one-sided rules |
| `RehubExamples.MachinesArePromotable` | api/v1alpha1/rehub.go:324-379 | a config of three versions with a rename in the promoted one and a guarded rename, a default and an auto-covered field in another meets the hypotheses |
| `RehubTheorem.PromotableBack` | api/v1alpha1/rehub.go:329-379 | the old hub of a promoted config can be promoted back |
| `RehubTheorem.RehubBackPreservesConversions` | api/v1alpha1/rehub.go:329-379 | promoting and promoting back preserves every conversion |
| `RehubWhole.RouteWholeIs` | pkg/engine/passthrough.go:80-164 | an object with any fields converts like its declared part, and an undeclared field comes through if and only if no version on the way declares it |
| `RehubWhole.RehubPreservesWholeObjects` | api/v1alpha1/rehub.go:329-379 | for every object at all, promotion keeps a conversion that succeeds between different versions if and only if no field that both ends leave undeclared is declared by just one of the two hubs |
| `RehubExamples.MovedGuardChangesConversion` | api/v1alpha1/rehub.go:529-545 | a valid config whose guard names a moved field: v1 to v3 loses a value it used to carry |
| `RehubExamples.MovedCoercionChangesConversion` | api/v1alpha1/rehub.go:715-724 | a valid config with a coercion on a moved field: v1 to v3 no longer compiles |
| `RehubExamples.ValuesAreNotComposed` | api/v1alpha1/rehub.go:848-888 | a valid config whose promoted version scales a field, with the loss acknowledged: v1 to v3 used to scale and now copies |
| `RehubExactly.PairsPromote` | api/v1alpha1/rehub.go:329-398 | promoting a version whose rules all tie single fields, guarded or not, always succeeds, and its path map sends every hub field to its partner |
| `RehubExactly.PromotionPreservesExactly` | api/v1alpha1/rehub.go:329-379 | for such a version, every rule of which is on a field some other version converts, the promotion keeps what its objects convert to, for all value operations, guards, objects and target versions, if and only if every promoted rule is an unguarded rename |
| `RehubExamples.DoubledFits` | api/v1alpha1/rehub.go:848-888 | the same config meets the hypotheses of the equivalence |
| `RehubExamples.NestedKeptExactly` | api/v1alpha1/rehub.go:702-714 | copying the nested rules is as good as rewriting them through a map of the item fields if and only if it moves none of the hub paths they name |
| `RehubExamples.NestedRulesStayBehind` | api/v1alpha1/rehub.go:702-714 | nested rules are copied as they are, so a promotion that renames an item field leaves them reading a name the new hub does not have |
| `RehubExamples.StrayFieldIsDropped` | pkg/engine/passthrough.go:66-107 | a promotable config on which an undeclared field named like a moved one stops coming through |
| `Conversion.PushMeans` | pkg/engine/convert.go:40-67 | running compiled operations in order yields the object that holds what each operation sends, and fails if and only if one of them does: with one writer per path the order is irrelevant |
| `Assign.ShardWeight` | api/v1alpha1/conversionwebhookserver_types.go:372-377 | a weight is at least 1, whatever is stored |
| `Assign.PickShard` | internal/assign/shard.go:66-78 | the loop over the pool keeps the best name and score seen so far |
| `Assign.PickExactly` | internal/assign/shard.go:66-78 | a name is picked if and only if it is the unique top-ranked member with a finite score; no name exactly when no member has one |
| `Assign.PickOrderFree` | internal/assign/shard.go:57-78 | the pick does not depend on the order of the pool, ties included |
| `Assign.AddMovesOnlyToNew` | internal/assign/shard.go:45-78 | adding a server moves keys only to it |
| `Assign.RemoveMovesOnlyItsKeys` | internal/assign/shard.go:45-78 | removing a server moves only the keys it held |
| `Assign.ReweightMovesOnlyItsKeys` | internal/assign/shard.go:66-102 | changing one weight moves keys only to that server when raised and only from it when lowered; an unchanged weight moves nothing |
| `Assign.ScalingMovesNothing` | internal/assign/shard.go:66-102 | multiplying every weight by one positive factor moves nothing |
| `Assign.ResolveAssignment` | internal/assign/assign.go:70-100 | the method with its early returns and loops computes the pinned server, the shard pick or the single default, or the error |
| `Assign.ResolvesTo` | internal/assign/assign.go:70-100 | precedence: a config resolves to a server if and only if it is pinned to an existing one, or the pool picks it, or it is the only default |
| `Assign.ResolveOrderFree` | internal/assign/assign.go:17-25 | every party that lists the same servers, in any order, computes the same answer, error texts included |
| `Assign.ResolvesToListed` | internal/assign/assign.go:70-100 | an assigned server is one of the listed ones |
| `Assign.DefaultsMean` | internal/assign/assign.go:83-99 | the default branch depends only on the set of default names: none, one, or the sorted list of several |
| `Assign.ConfigsAssignedTo` | internal/assign/assign.go:128-140 | the filtering loop keeps exactly the configs that resolve to the server, in order |
| `Fanout.PutView` | internal/controller/cws_fanout.go:138-157 | the loop with its found flag replaces or appends the view and clears the other defaults for a default view |
| `Fanout.ViewListing` | internal/controller/cws_fanout.go:133-157 | the list with a view put in is again one with unique names and contains the view |
| `Fanout.MapConfigsForServerViews` | internal/controller/cws_fanout.go:77-103 | the seen-and-append loops followed by the sort return each requested name once, ascending |
| `Fanout.EnqueuedExactly` | internal/controller/cws_fanout.go:77-103 | a name is requested if and only if a config of that name is assigned to the server under one of the views |
| `Fanout.ViewsMissNothing` | internal/controller/cws_fanout.go:39-51 | whatever changed between two server lists, a config whose resolution changed answers to the old or new view of some changed server mapped against the final list |
| `Fanout.FanoutComplete` | internal/controller/cws_fanout.go:33-51 | every config whose answer changed, errors included, is in the request list of at least one of the reported events |
| `Fanout.FanoutCompleteOverHistory` | internal/controller/cws_fanout.go:33-51 | the same for any sequence of edits, creations and deletions whose events are only handled at the end |
| `Fanout.CompleteExactlyWhenScored` | internal/assign/shard.go:87-102 | the fan-out misses nothing over all pairs of lists if and only if no server name hashes to u = 1 with the key |
| `Fanout.StuckPoolIsMissed` | internal/assign/shard.go:99-101 | with such a hash, switching off sharding on the only member changes the answer and no event enqueues the config |
| `DeleteGuard.PointsAtExactly` | internal/assign/assign.go:180-188 | for all names the URL of a names b if and only if a is b, or a continues b's delimited service name, or b continues a's into what follows it in the URL |
| `DeleteGuard.PointsAtByName` | internal/assign/assign.go:180-188 | for a namespace without dots the last case reads: b is a's delimited service name and a rest, and the namespace is that rest with the service suffix |
| `DeleteGuard.NamespacePointsElsewhere` | internal/assign/assign.go:180-188 | every server whose name continues another one's delimited service name is named by that one's URLs from one namespace |
| `DeleteGuard.PointsAtOnlyItself` | internal/assign/assign.go:180-188 | between dot-free names the URL of a names b if and only if a = b |
| `DeleteGuard.PointsAtItself` | internal/assign/assign.go:180-188 | whatever the names, the URL written for a server names that server |
| `DeleteGuard.DottedNamePointsElsewhere` | internal/assign/assign.go:184-187 | the URL of a dotted name can name another server |
| `DeleteGuard.ConfigsServedBy` | internal/assign/assign.go:190-204 | the filtering loop keeps exactly the configs assigned to or pointed at the server |
| `DeleteGuard.ServerObject.ReconcileDelete` | internal/controller/conversionwebhookserver_controller.go:788-843 | the finalizer is removed, or the blocking configs recorded and the reconcile requeued, exactly as the verdict says, and nothing else changes |
| `DeleteGuard.HeldExactlyWhileInUse` | internal/controller/conversionwebhookserver_controller.go:794-836 | an unforced delete is held if and only if a config of either kind is assigned to the server or has its target pointed at it |
| `DeleteGuard.HeldNames` | internal/controller/conversionwebhookserver_controller.go:813-834 | the condition names exactly those configs |
| `DeleteGuardRuns.UnforcedReleaseIsUnused` | internal/controller/conversionwebhookserver_controller.go:788-843 | in any state, an unforced delete reconcile lets go of no server that a config resolves to or an applied URL names |
| `DeleteGuardRuns.ReleasedExactly` | internal/controller/conversionwebhookserver_controller.go:788-843 | with dot-free names a server being deleted is let go if and only if forced, or nothing is assigned to it and no URL names it |
| `DeleteGuardRuns.StepDanglesExactly` | internal/controller/conversionwebhookserver_controller.go:788-843 | a step makes an applied URL name a missing server if and only if it is a forced release of a named server or writes a URL whose server went away after it was resolved |
| `DeleteGuardRuns.RunsKeepURLsServed` | internal/controller/conversionwebhookserver_controller.go:788-843 | over any sequence of server edits, config edits, applies and delete reconciles without such a step, no applied URL ever dangles |
| `DeleteGuardRuns.RunsFromEmpty` | internal/controller/conversionwebhookserver_controller.go:788-843 | in particular from an empty cluster |
| `DeleteGuardRuns.ServerListing` | internal/controller/conversionwebhookserver_controller.go:804-807 | the servers a reconcile lists are those of the cluster, each name once |
| `DeleteGuardRuns.ImmediateCommitIsSafe` | internal/controller/xrdconversionconfig_controller.go:220-337 | an apply whose resolve and write run back to back never leaves a dangling URL |
| `DeleteGuardRuns.OverlapDangles` | internal/controller/xrdconversionconfig_controller.go:220-337 | without any force, a delete reconcile between the two halves of an apply does |
| `WorkerPool.EffectiveConcurrency` | internal/cli/test.go:144-156 | at least one worker, never more than jobs, the option itself when it is in range |
| `WorkerPool.Sequential` | internal/cli/test.go:441-486 | the loop that a single worker amounts to |
| `WorkerPool.StepKeepsInv` | internal/cli/test.go:441-486 | every step of feeder and workers keeps: each index in exactly one place, results right, mutual exclusion, the tally equal to a fold over what was stored |
| `WorkerPool.NoLostUpdate` | internal/cli/test.go:466-482 | the tally read under the mutex is never stale when written back |
| `WorkerPool.NeverStuck` | internal/cli/test.go:441-486 | until every worker has exited some step is possible |
| `WorkerPool.StepDecreases` | internal/cli/test.go:441-486 | every step decreases a bound on the steps left |
| `WorkerPool.FoldOfPermutation` | internal/cli/test.go:466-482 | a commutative tally over any order of all indexes is the sequential one |
| `WorkerPool.EveryRunIsSequential` | internal/cli/test.go:441-486 | every interleaving ends within 5n + workers + 1 steps with the sequential results and tally, each job stored once |
| `WorkerPool.WorkerCountIsIrrelevant` | internal/cli/test.go:436-438 | finished runs with any two worker counts have the same results and tally |
| `WorkerPool.NoWorkersNoWork` | internal/cli/test.go:142-156 | without the floor of one worker the run would end at once with nothing done |
| `TestRun.TestOnePath` | internal/cli/test.go:694-812 | identity, the two conversion errors, the difference loop and the classification, with the rule usage counted along |
| `TestRun.PassesExactly` | internal/cli/test.go:755-791 | a non-identity path passes if and only if both conversions succeed, nothing violates the schema and the round trip agrees outside the ignored fields |
| `TestRun.FailsExactly` | internal/cli/test.go:755-791 | a path fails if and only if the round trip changes a field that no rule on the way declares lossy, and is an acknowledged loss if and only if it changes some and all are declared |
| `TestRun.OnePathPerTarget` | internal/cli/test.go:565-582 | one result per target, the skipped identity left out |
| `TestRun.TestOneSample` | internal/cli/test.go:546-584 | the paths of one sample, with counters and usage that equal a recount of them |
| `TestRun.RecountConserves` | internal/cli/test.go:534-540 | pass, acknowledged, unacknowledged and error counts add up to the paths tested |
| `TestRun.ReuseCounts` | internal/cli/test.go:795-810 | a rule's usage is the number of times the path results list it |
| `TestRun.TestJobCommutes` | internal/cli/test.go:466-476 | adding sample tallies to the report commutes |
| `TestRun.EveryRunReportsTheSame` | internal/cli/test.go:404-529 | every interleaving of every worker count reports sample i at index i and a summary that is a recount of the reported path results |
| `Migrate.Cluster.MigrateAll` | internal/cli/migratestorage.go:429-491 | one worker over the objects: results in order, and every object that did not fail re-encoded unless it is a dry run |
| `Migrate.WorldIsWritten` | internal/cli/migratestorage.go:449-459 | with each call made outside the mutex, at every moment of every run the cluster holds exactly what the calls made so far have written |
| `Migrate.EveryRunMigratesTheSame` | internal/cli/migratestorage.go:429-469 | every interleaving of workers and calls makes each call once and leaves the same objects and results |
| `Migrate.Cluster.RunMigrateStorage` | internal/cli/migratestorage.go:276-411 | refusal, listing, migration, accounting and prune gate over any number of CRDs, with the whole new cluster state |
| `MigrateSafety.PrunedExactly` | internal/cli/migratestorage.go:361-398 | a CRD's stored versions are rewritten if and only if the gate is open and its own status update succeeds |
| `MigrateSafety.OthersUntouched` | internal/cli/migratestorage.go:661-673 | no other CRD's stored versions ever change |
| `MigrateSafety.GateMeans` | internal/cli/migratestorage.go:292-382 | an open gate means no dry run, no namespace filter on a namespaced target, and every object of every CRD at its storage version |
| `MigrateSafety.RunKeepsTruth` | internal/cli/migratestorage.go:276-411 | whatever fails on the way, status.storedVersions stays true: no object is left at a version its CRD does not list |
| `MigrateSafety.ReportAccounts` | internal/cli/migratestorage.go:329-411 | succeeded plus failed equals the objects listed, per CRD and in total; a report that says pruned had no failure at all |
| `Planner.RetiringVersions` | internal/cli/plan.go:493-512 | the outgoing hub and then every deprecated or unserved version, once each |
| `Planner.BuildSteps` | internal/cli/plan.go:262-476 | the step list and the in-place rewriting of its statuses |
| `Planner.NextStep` | internal/cli/plan.go:593-600 | the first ready step |
| `PlannerRuns.AtMostOneReady` | internal/cli/plan.go:458-475 | at most one step is ever ready |
| `PlannerRuns.RetiringExactly` | internal/cli/plan.go:483-512 | a version is retiring if and only if it is the outgoing hub, or another version that is deprecated or unserved |
| `PlannerRuns.OpeningOrder` | internal/cli/plan.go:262-365 | promotion is offered only when served and wired; a packaged target is wired before it is served, others the other way round; cluster-only steps are never offered |
| `PlannerRuns.StopServingIsSafe` | internal/cli/plan.go:394-456 | un-serving is offered only under assume-verified, with the new hub served, wired and promoted, and only for a deprecated version |
| `PlannerRuns.DropIsSafe` | internal/cli/plan.go:394-456 | dropping is offered only under the same conditions and only for an unserved version |
| `PlannerRuns.NothingLeftExactly` | internal/cli/plan.go:586-600 | nothing is offered if and only if the new hub is served, wired and promoted and, under assume-verified, no other version is deprecated or unserved |
| `PlannerRuns.StepDecreases` | internal/cli/plan.go:262-476 | carrying out the offered step decreases a measure, so every run ends |
| `PlannerRuns.RunKeepsCurrent` | internal/cli/plan.go:478-512 | no run touches a served, undeprecated version |
| `PlannerRuns.RunReachesTarget` | internal/cli/plan.go:257-476 | every run ends settled; under assume-verified the versions left besides the target are exactly those that were served and undeprecated |
| `PlannerRuns.UnverifiedRunRetiresNothing` | internal/cli/plan.go:427-456 | without assume-verified a whole run retires nothing |
| `Levenshtein.Distance` | internal/cli/suggest.go:275-293 | the two-row loop with its array swap computes the last cell |
| `Levenshtein.DistIsMinimum` | internal/cli/suggest.go:275-293 | which is the minimum cost over all edit scripts |
| `Levenshtein.Identity` | internal/cli/suggest.go:275-293 | distance 0 if and only if equal |
| `Levenshtein.Symmetry` | internal/cli/suggest.go:275-293 | the distance is symmetric |
| `Levenshtein.Triangle` | internal/cli/suggest.go:275-293 | the triangle inequality, by composing edit scripts |
| `Levenshtein.Bounds` | internal/cli/suggest.go:275-293 | the distance is at most the longer length and at least the difference of the lengths |
| `Levenshtein.ReachesBound` | internal/cli/suggest.go:275-293 | the longer length is reached by names without a common letter |
| `Levenshtein.NameSimilarity` | internal/cli/suggest.go:250-263 | the score of two names as the code computes it |
| `Levenshtein.SimilarityIsAScore` | internal/cli/suggest.go:246-263 | a score lies in 0..1, is symmetric, is 1 exactly for names equal after normalisation and 0 exactly for an empty name or the largest distance |
| `Suggest.DedupeSorted` | internal/cli/suggest.go:232-244 | the sorted list of the distinct inputs |
| `Suggest.SiblingsDifferInName` | internal/cli/suggest.go:218-230 | two paths under one parent are equal if and only if their last names are |
| `Suggest.RenameCandidates` | internal/cli/suggest.go:173-208 | the nested loops and the sort return every plausible pair, best first |
| `Suggest.BestFirstInOrder` | internal/cli/suggest.go:198-206 | candidates are in order of score, ties broken by hub path and then by spoke path |
| `Suggest.SuggestSpokeRules` | internal/cli/suggest.go:124-160 | coercions first, then the greedy walk over the candidates |
| `Suggest.GreedyIsMatching` | internal/cli/suggest.go:148-158 | the accepted renames use no path twice and no coerced path |
| `Suggest.GreedyIsMaximal` | internal/cli/suggest.go:148-158 | every free candidate left out conflicts with an accepted rename at least as similar |
| `Suggest.GreedyIsHalfOptimal` | internal/cli/suggest.go:162-172 | the accepted renames score at least half of any matching of the free candidates |
| `Suggest.GreedyIsNotOptimal` | internal/cli/suggest.go:162-172 | two schemas whose candidates greedy matches with less than the best total |
| `Suggest.SuggestionsAreGood` | internal/cli/suggest.go:120-160 | the proposal as a whole: uncovered paths only, none twice, half-optimal |
| `Sampling.Sampler.Full` | internal/cli/sampling.go:153-159 | only the first strategy at its cap stops the listing, and records that it did |
| `Sampling.Sampler.Add` | internal/cli/sampling.go:162-196 | each strategy keeps what it claims to hold, kept and order aligned; the random strategy takes the reservoir step |
| `Sampling.Sampler.TrimOldest` | internal/cli/sampling.go:200-209 | one oldest entry leaves both slices at the same index and the newest ones remain |
| `Sampling.Sampler.Result` | internal/cli/sampling.go:213-252 | the samples, newest first for that strategy, and a report exactly when the run was sampled |
| `Sampling.NewestFirstOrdered` | internal/cli/sampling.go:220-232 | the stable sort lists each held object once, newest first and then by file |
| `Sampling.CollectAndReport` | internal/cli/live.go:180-216 | samples come from distinct positions, never more than the cap; the newest strategy keeps the newest; a nil report means every object was offered and kept; the random strategy ends with the reservoir its choices lead to |
| `Sampling.ReservoirIsUniform` | internal/cli/sampling.go:171-184 | over all choice sequences each of the t objects seen is held in exactly n of every t reservoirs, none twice and never more than n |
| `ReservoirSubsets.EverySubsetAlike` | internal/cli/sampling.go:171-184 | over all choice sequences every set of n of the t objects is held by the same number of reservoirs, (t - n) factorial |
| `Sampling.RunIsReservoir` | internal/cli/sampling.go:171-184 | every run of the random strategy is one of those reservoirs |
| `Retarget.RetargetPatch` | internal/cli/retarget.go:389-404 | the inside-out loop builds the machinery patch nested under the prefix |
| `Retarget.NoOpExactly` | internal/cli/retarget.go:409-424 | the no-op test is right if and only if the object is not a labelled one with a ref that is not a map, nor an up-to-date one with another label that is not a string |
| `Retarget.NoOpOnWellTyped` | internal/cli/retarget.go:406-424 | on well-typed objects it holds if and only if merging the patch (section 2 of RFC 7396) changes nothing |
| `Retarget.NullRefIsMissed` | internal/cli/retarget.go:409-416 | an object with a null ref is called done although the patch would change it |
| `Retarget.AppliedOnce` | internal/cli/retarget.go:379-424 | a second application changes nothing, and the test then holds if and only if the other labels are strings |
| `Retarget.TouchesNothingElse` | internal/cli/retarget.go:389-404 | every path that is not on the way to, at or below the two refs and the one label reads the same afterwards |
| `Retarget.ApplyCanary` | internal/cli/retarget.go:429-455 | a canary selects between none and all, and is an error exactly for a malformed or out-of-range value |
| `Retarget.CanaryGrows` | internal/cli/retarget.go:426-455 | larger canaries contain smaller ones, a non-zero one of a non-empty set selects something, 100% selects all |
| `Retarget.CountGrows` | internal/cli/retarget.go:448-455 | larger counts contain smaller ones, a non-zero one selects something, one at least as large as the set selects all |
| `Retarget.RerunSkips` | internal/cli/retarget.go:351-377 | an object that did not fail is skipped unchanged by every later run |
| `RetargetRuns.Report` | internal/cli/retarget.go:337-347 | the closing loop tallies the failed, skipped and patched objects, which add up to all |
| `RetargetRuns.EveryRunRetargetsTheSame` | internal/cli/retarget.go:301-333 | every interleaving of any number of workers treats each object once, stores its outcome at its own index and counts all of them |
| `RetargetRuns.RerunReports` | internal/cli/retarget.go:334-377 | on well-typed objects a second run patches none, skips what was patched or skipped, fails where it failed, and changes nothing |
| `Fuzz.Generator.Value` | internal/cli/fuzz.go:99-142 | for every random source and recursive schema of honoured bounds nothing panics and the value is nil or valid, or a required field was recorded as unconstructible; the path is balanced; the depth cut ends the recursion |
| `Fuzz.Generator.Object` | internal/cli/fuzz.go:163-204 | required fields are present and every field valid, unless one was recorded |
| `Fuzz.Generator.Array` | internal/cli/fuzz.go:228-292 | item bounds hold after unconstructible items are skipped, or nil |
| `Fuzz.Generator.Text` | internal/cli/fuzz.go:339-404 | a string satisfies length and pattern, or nil |
| `Fuzz.Generator.Integer` | internal/cli/fuzz.go:406-455 | on a range narrower than 2^63 no draw panics: an integer within the bounds, nil if and only if there is none |
| `Fuzz.DrawExactly` | internal/cli/fuzz.go:444-454 | the draw from inside a range of int64 is defined for every random source if and only if the ends are less than 2^63 - 1 apart, and then stays between them |
| `Fuzz.IntegerDrawExactly` | internal/cli/fuzz.go:406-455 | the same for the range computed from a schema's bounds |
| `Fuzz.WideRangePanics` | internal/cli/fuzz.go:444-454 | a sensible schema, minimum -9e18 and maximum 9e18, on which every draw from inside the range panics |
| `Fuzz.Generator.Number` | internal/cli/fuzz.go:457-476 | a number within the bounds |
| `Fuzz.IntegerRangeExactly` | internal/cli/fuzz.go:422-443 | every integer of the range tried satisfies the bounds; no range if and only if no integer does |
| `Fuzz.NumberRangeExactly` | internal/cli/fuzz.go:457-467 | the number range keeps to the bounds if and only if there is no negative maximum without a minimum |
| `Fuzz.LengthRangeExactly` | internal/cli/fuzz.go:365-378 | generated lengths keep to the bounds if and only if there is no maximum length of 0 without a minimum |
| `Fuzz.EmptyArrayExactly` | internal/cli/fuzz.go:228-231 | without an item schema the empty array is valid if and only if no item is required |
| `Fuzz.ItemRangeBounds` | internal/cli/fuzz.go:232-248 | the item counts tried keep to the bounds |
| `Diff.DiffExactly` | internal/cli/diff.go:39-69 | a position is reported if and only if it is reached through matching containers with nothing ignored on the way and the two values differ there |
| `Diff.EmptyExactlyWhenAgree` | internal/cli/diff.go:28-69 | nothing is reported if and only if the two trees are equal with ignored fields and nulls dropped and numbers taken as float64 |
| `Float64.KeptExactly` | pkg/engine/coerce.go:148-161 | a whole number is converted without loss if and only if it is a multiple of its unit in the last place, as all up to 2^53 are |
| `Diff.ComparedByValueExactly` | internal/cli/diff.go:71-87 | a whole number is compared by value with every float64 if and only if it is one itself, as all up to 2^53 are |
| `Diff.OnlyNeighboursTakenForEqual` | internal/cli/diff.go:71-87 | two different whole numbers are taken for equal only beyond 2^53, at most half the sum of their units apart |
| `Diff.LargeNumbersTakenForEqual` | internal/cli/diff.go:71-87 | 2^53 + 1 and 2^53 are taken for equal |
| `Diff.DiffSymmetric` | internal/cli/diff.go:39-69 | swapping the two objects changes nothing |
| `Diff.DiffIsBelow` | internal/cli/diff.go:39-69 | what a subtree reports lies at or below it |
| `DiffPaths.RenderInjective` | internal/cli/diff.go:60-93 | with keys that are non-empty, free of dots and without an index at their end, no two positions render alike |
| `DiffPaths.SharedKey` | internal/cli/diff.go:60-93 | a non-empty key shares its path with another position of non-empty keys if and only if it has an inner dot or ends in a bracketed index |
| `DiffPaths.SharedExactly` | internal/cli/diff.go:60-93 | the same for every position: only the root and the top-level keys without such an ending or dot have a path of their own |
| `DiffPaths.EmptyKeyIsInvisible` | internal/cli/diff.go:88-93 | an empty top-level key leaves no trace in any path below it |
| `DiffPaths.KeysCollide` | internal/cli/diff.go:60-93 | a dotted key reads as a nested one, a bracketed one as an array item, an empty one as nothing |
| `DiffPaths.DiffInto` | internal/cli/diff.go:39-69 | the recursive walk, map keys in any order, appends each differing position once |
| `DiffPaths.DiffLeaves` | internal/cli/diff.go:32-37 | one ascending entry per differing position; with keys that are non-empty and free of dots and brackets exactly the set of differing paths |
| `DiffPaths.StripArrayIndices` | internal/cli/diff.go:133-146 | the two nested scans drop everything in brackets |
| `DiffPaths.StripRendered` | internal/cli/diff.go:129-146 | stripping a rendered position leaves its dotted keys |
| `DiffPaths.PathMatchesAny` | internal/cli/diff.go:116-127 | some prefix of the stripped path is declared |
| `DiffPaths.JoinInjective` | internal/cli/diff.go:109-127 | two different declared paths never stand for the same dotted string |
| `DiffPaths.CoveredExactly` | internal/cli/diff.go:109-127 | a reported position is covered if and only if a declared path is its own dotted keys or those of an ancestor |

## Left out

- RehubPreservesConversions: does not cover `ForEach`, the annotation and label stashes and the many-field strategies, because the engine compiles them to operations that read or write metadata or more than one leaf of each side; `JSONPatch`, `CEL` and `BranchMap` are rejected by the promotion itself. A guard names a leaf field; the code also accepts a container.
- PromotionPreservesExactly: does not cover one-sided and `ForEach` rules in the promoted version; `NestedRulesStayBehind` is a witness for the latter.
- RehubKeepsValid: the compiler's type and lossiness diagnostics are not modelled, so the configs called valid include all that it accepts and some that it rejects.
- RouteWholeIs: an object is a map from paths to values; an undeclared field below a declared leaf is part of that leaf's value.
- The engine's auto-covered passthrough inside `ForEach` items and the length check on arrays: compiled, not executed.
- Value operations (coercion, quantity, duration, scale, CEL, JSON Patch, pattern and template codecs) are opaque functions; their own correctness is not modelled.
- ScaleSwaps: a zero factor compiles to no operation here, while the code still emits operations beside its error diagnostic; that it survives inversion is a simplification of the model.
- ReverseTwice: when two keys share a value the Go map order decides which survives a reversal; the model takes the least key, and no result depends on it.
- PickExactly: FNV hashing and floating-point rounding of the score are replaced by an arbitrary positive base; equal real scores stand for equal floats.
- FanoutComplete: the events' order and the work queue are not modelled; all events are mapped against one final list.
- RunsKeepURLsServed: the write of the target and of the recorded URL is one step, and finalizers are removed by the delete reconcile only; the handover gate is left out, it only delays a write.
- EveryRunReportsTheSame: the shared golden corpus is left out, its drift order depends on the schedule; so are progress output and timing.
- EveryRunMigratesTheSame: whether an apply succeeds is fixed per object, not per moment; objects created or deleted by others during the run are not modelled.
- RunMigrateStorage: warnings, field manager and the resolution of the targets from an XRD or CRD are left out.
- BuildSteps: titles, run, gate, verify and blocked-by texts are left out; only kind and status of each step remain.
- Finish: the operator carries out each step literally as its instruction says; edits by others between two plans are not modelled.
- SimilarityIsAScore: normalisation is an arbitrary fold of each character to lower-case letters and digits; Unicode tables and the byte length of multi-byte letters are not modelled.
- ReservoirIsUniform: counts choice sequences as equally likely; the quality of the pseudo-random source is not modelled.
- DiffExactly: a float64 is any real number here; only the conversion of whole numbers rounds.
- RerunSkips: one object at a time; the listing, the scope detection and the report's notes are left out.
- Value: schema keywords the generator does not read (`multipleOf`, exclusive bounds, `uniqueItems`, `format`, combinators, `additionalProperties`) are not in the schema model; regular expressions are an arbitrary predicate.
- `golden.go`, `compat.go`, `configdiff.go`, `versions.go`, rollout validation, rendering, Kubernetes client plumbing, certificates and the server-side apply of child resources: easier members or I/O.
