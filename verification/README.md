# Dafny model of SOAC

SOAC compiles a strict subset of Python against type facts that are collected offline, signed into a manifest and
checked again when a module is loaded. This project models the parts on which that depends, and the tools around
them, and proves what they are for:

- **Static types** (`Types`, `Normalization`, `NormalizeSteps`, `Meaning`): normalization with its depth limit of 64,
  its canonical form, and that it changes no type's meaning.
- **Conservative demotion** (`Facts`, `Closure`, `Demotion`, `DemotionSteps`, `Exactness`, `Canonical`,
  `Commutation`, `Reordering`): the least set of definitions tainted by suppressed diagnostics, the rewriting of every
  catalogue, that it removes exactly what it must, that the canonical form of a module's facts is stable, and what it
  shows of the order of the catalogues.
- **Manifests and deployment** (`Hex`, `Manifest`, `Publication`, `Inputs`, `Deployment`): the one-pass consistency
  check, the way from published shard to verified facts, observed inputs, and the shared-read snapshot.
- **Benchmark kernel** (`Permutations`, `Queens`): the in-place permutation generator and the searches built on it.
- **Test runner** (`Batches`, `Monitor`): batching, and the launch/finish/stop protocol in all interleavings, with what
  it can wait for and that shutdown ends.
- **Source migration** (`Text`, `Migration`): the promotion with its compensations under arbitrary faults.

`Ordering` holds the total order that Rust derives for the fact types and the sorting built on it, `Stability` what a
stable sort keeps and forgets, and `Collections` filtering and the sizes of sets.

Code that works step by step is a method or a class, proved against functions on values; what the program promises is
then stated about those functions. A file system is a map, bytes are numbers, and a canonical encoding is the value it
encodes. Digests, signatures, hashes and the checks that only look inside one record are function parameters, so the
results hold for any of them; where a result needs that digests do not collide, or that signatures verify, it says so.

Where expectations and code part:

- Directory observations are meant to depend only on the entries their filters select. The code refuses a listing with
  any name that is not UTF-8, selected or not (`crates/soac_contracts/src/deployment.rs:702-709`).
  `Inputs.UnreadableNameBreaksView` shows it, and `Inputs.CapturedHoldsExactly` has the exact condition.
- Normalization can give a type a supported value shape that it did not have, through `Literal[None]`
  (`crates/soac_contracts/src/facts.rs:255-299`). `Meaning.LiteralNoneGainsShape` shows it, and
  `Meaning.NormalizationKeepsShape` has the exact condition.
- A failing final check or record write leaves the promoted layout with a record that says otherwise
  (`scripts/migrate_cpython_shared_source.py:201-203`). `Migration.UnrecordedExample` shows it,
  `Migration.UnrecordedExactly` has the exact condition, and `Migration.PromotedIsRefused` says what it costs: a later
  run does not get past its checks.
- Asked for a length that the pool does not have, the permutation generator does not come back empty. Beyond the pool
  it yields all of it and then raises, and for a negative length it yields a shortened slice
  (`bench/nqueens_slice_permutations_tuple_consumer.py:6-26`). `Permutations.Permute` states all three ranges.
- Catalogues are meant to be unordered, but entries with equal keys keep the order in which they came
  (`crates/soac_contracts/src/validation.rs:9-11`). `Reordering.RepeatedNameMatters` shows it, and
  `Reordering.ReorderedExactly` has the exact condition.

## Model

| member | source | states |
|---|---|---|
| `Permutations.Permute` | bench/nqueens_slice_permutations_tuple_consumer.py:6-26 | for every pool and every requested integer: from zero up to the length of the pool (omitted: all of it) the yields are exactly the arrangements of the positions, each once, in lexicographic order, n!/(n-r)! in all, each looked up in the pool; beyond it the pool itself is yielded once and then, unless it is empty, an index error is raised; below zero one slice that is so much shorter than the pool is yielded |
| `Permutations.Generate` | bench/nqueens_slice_permutations_tuple_consumer.py:6-26 | the run to exhaustion yields the reference enumeration `All` in its order, or one slice of the pool for a length that the pool does not have, and raises exactly beyond the length of a pool that is not empty |
| `Permutations.Enumerate` | bench/nqueens_slice_permutations_tuple_consumer.py:6-26 | for a length that the pool has, the two nested loops with their in-place edits yield the reference enumeration in its order |
| `Permutations.PassBeyond` | bench/nqueens_slice_permutations_tuple_consumer.py:15-24 | beyond the length of the pool the first pass goes straight to a swap past the end of `indices` and raises |
| `Permutations.Advance` | bench/nqueens_slice_permutations_tuple_consumer.py:15-26 | one pass of the for/else with its in-place edits: either it breaks with the next arrangement in place, and what was to come is that one followed by what is still to come, or nothing was left |
| `Permutations.AllMembers` | bench/nqueens_slice_permutations_tuple_consumer.py:6-26 | the reference enumeration contains exactly the arrangements: right length, distinct, drawn from the pool |
| `Permutations.AllAscending` | bench/nqueens_slice_permutations_tuple_consumer.py:6-26 | the reference enumeration is strictly increasing in lexicographic order, so nothing occurs twice |
| `Permutations.AllCount` | bench/nqueens_slice_permutations_tuple_consumer.py:6-26 | the reference enumeration has as many entries as the falling factorial |
| `Permutations.FallingTimesFactorial` | bench/nqueens_slice_permutations_tuple_consumer.py:33-37 | the falling factorial is n!/(n-r)! |
| `Permutations.RestIsRadix` | bench/nqueens_slice_permutations_tuple_consumer.py:12-19 | the mixed-radix number written by `cycles` is the number of yields still to come |
| `Permutations.RadixDrops` | bench/nqueens_slice_permutations_tuple_consumer.py:14-24 | each yield takes exactly one off that number |
| `Permutations.RotationResets` | bench/nqueens_slice_permutations_tuple_consumer.py:17-19 | rotating the tail at an exhausted position gives the list that the reset counters describe |
| `Permutations.FreshTailAscends` | bench/nqueens_slice_permutations_tuple_consumer.py:17-19 | after a reset the tail of `indices` is sorted again |
| `Permutations.SwapAdvances` | bench/nqueens_slice_permutations_tuple_consumer.py:20-22 | the swap with the element `cycles[i]` from the end moves position `i` to its next choice and leaves the rest in order |
| `Permutations.FollowingYields` | bench/nqueens_slice_permutations_tuple_consumer.py:15-24 | the state after a break is the first of what was to come, and leaves exactly the others |
| `Queens.NQueens` | bench/nqueens_slice_full_nqueens_list_consumer.py:29-35 | the filtering generator yields the solutions in order |
| `Queens.SolutionsArePeaceful` | bench/nqueens_slice_full_nqueens_list_consumer.py:29-35 | for every board size the solutions are exactly the placements in which no two queens share a row, column or diagonal, in lexicographic order |
| `Queens.AcceptsMeansPeaceful` | bench/nqueens_slice_full_nqueens_list_consumer.py:32-34 | on a permutation the two set-size tests decide exactly that no diagonal is shared |
| `Queens.SizeMeansDistinct` | bench/nqueens_slice_full_nqueens_list_consumer.py:32-34 | a set built from a list has as many elements as the list exactly when no value repeats |
| `Queens.AcceptedKeepsOrder` | bench/nqueens_slice_full_nqueens_list_consumer.py:31-35 | filtering keeps exactly the accepted placements and keeps them in order |
| `Queens.ListConsumer` | bench/nqueens_slice_full_nqueens_list_consumer.py:38-39 | the list consumer returns the number of solutions |
| `Queens.ComposedConsumers` | bench/nqueens_slice_nqueens_composed_consumers.py:29-37 | the counting loop, which never builds the list, returns the same number |
| `Queens.OrderedClosedPipeline` | bench/nqueens_slice_ordered_closed_pipeline.py:35-44 | the filter/map/generator pipeline returns that same list |
| `Queens.TupleConsumer` | bench/nqueens_slice_permutations_tuple_consumer.py:29-30 | the tuple consumer counts n! permutations |
| `Queens.ExpectedPermutations` | bench/nqueens_slice_permutations_tuple_consumer.py:33-37 | the expected result multiplies up to n!, so it always equals the tuple consumer |
| `Queens.ExpectedSmallBoards` | bench/nqueens_slice_ordered_closed_pipeline.py:47-51 | the solutions written out for one and four columns are the ones the search finds |
| `Queens.ExpectedPipeline` | bench/nqueens_slice_ordered_closed_pipeline.py:47-68 | the expected result exists for one, four and eight columns and is then what the pipeline returns, whether written out or computed |
| `Queens.PeacefulByDiagonals` | bench/nqueens_slice_ordered_closed_pipeline.py:54-67 | the reference loop over the library permutations finds the same list for every board |
| `Queens.Diagonals` | bench/nqueens_slice_ordered_closed_pipeline.py:56-60 | adding queen by queen fills the two sets of diagonals |
| `Ordering.LessTotal` | crates/soac_contracts/src/facts.rs:189-222 | the order derived for the fact types is total |
| `Ordering.LessTransitive` | crates/soac_contracts/src/facts.rs:189-222 | the order is transitive |
| `Ordering.LessIrreflexive` | crates/soac_contracts/src/facts.rs:189-222 | the order is irreflexive |
| `Types.TypeOrderTotal` | crates/soac_contracts/src/facts.rs:189-222 | any two static types are equal or ordered one way or the other, through callables, defaults and type variables |
| `Types.TypeKeyIsInjective` | crates/soac_contracts/src/facts.rs:189-222 | the order tells any two different static types apart, so a sorted set keeps both |
| `Ordering.SortByPermutation` | crates/soac_contracts/src/artifact.rs:513-524 | sorting by keys that do not repeat gives the same list for every order of the input |
| `Stability.SortsAlike` | crates/soac_contracts/src/validation.rs:9-11 | two lists sort alike exactly if they have the same elements and agree in the order of those with equal keys |
| `Stability.FilterSort` | crates/soac_contracts/src/validation.rs:46-46 | filtering commutes with a stable sort |
| `Ordering.SortedSetFacts` | crates/soac_contracts/src/facts.rs:312-318 | sorting and deduplicating keeps exactly the members, strictly ascending |
| `Normalization.NormalizeExact` | crates/soac_contracts/src/facts.rs:271-323 | normalization succeeds exactly when the nesting fits into what the depth leaves of 64 and no union is empty, and its result is then the unbounded rewriting, whatever the depth |
| `Normalization.NormalizationCanonical` | crates/soac_contracts/src/facts.rs:226-323 | the result contains no Optional, nested union, one-element union or Literal None, its unions and constraint sets are strictly sorted, every shallower depth gives the same result, and normalizing again changes nothing |
| `Normalization.SignatureNormalizationCanonical` | crates/soac_contracts/src/facts.rs:425-433 | the same for callable signatures |
| `Normalization.DefaultNormalizationCanonical` | crates/soac_contracts/src/facts.rs:451-462 | the same for default facts |
| `Normalization.SameAlternatives` | crates/soac_contracts/src/facts.rs:276-298 | two types with the same set of alternatives, however nested and ordered, normalize to the same type whenever both succeed |
| `Normalization.AssembleMembers` | crates/soac_contracts/src/facts.rs:283-297 | the set filled by the loop holds exactly the members of the normalized parts, sorted, without repetition and without nested unions |
| `Normalization.NormalFixed` | crates/soac_contracts/src/facts.rs:271-323 | a type in canonical form is its own normal form |
| `NormalizeSteps.Normalize` | crates/soac_contracts/src/facts.rs:271-323 | the recursive method computes the specified result, errors included |
| `NormalizeSteps.NormalizeUnion` | crates/soac_contracts/src/facts.rs:279-298 | the loop that fills one sorted set from the normalized elements builds the specified union |
| `NormalizeSteps.NormalizeVariable` | crates/soac_contracts/src/facts.rs:305-320 | bound and constraints are normalized, the constraints sorted and deduplicated, in the source order of failures |
| `NormalizeSteps.NormalizeSignatureFields` | crates/soac_contracts/src/facts.rs:425-433 | the field updates of a signature give the specified signature, or the first error |
| `NormalizeSteps.NormalizeDefaultField` | crates/soac_contracts/src/facts.rs:451-462 | the field update of a default gives the specified default, or the error |
| `Meaning.NormalizationPreservesMeaning` | crates/soac_contracts/src/facts.rs:271-323 | for every interpretation of the leaf types, and of callables and type variables by the meaning of their parts, the accepted values are unchanged |
| `Meaning.NormalizationPreservesUncertainty` | crates/soac_contracts/src/facts.rs:230-253 | whether a type contains uncertainty is unchanged |
| `Meaning.NormalizationKeepsShape` | crates/soac_contracts/src/facts.rs:255-269 | the normalized type has a supported value shape exactly when the original has one once Literal None is read as None; in particular a supported shape stays supported |
| `Meaning.LiteralNoneGainsShape` | crates/soac_contracts/src/facts.rs:255-299 | the converse fails: Literal None is unsupported and normalizes to a supported type |
| `Closure.IgnoredIsLeast` | crates/soac_contracts/src/diagnostics.rs:20-114 | the ignored definitions are the least set that contains the seeds of the suppressed diagnostics and is closed under overlap, base, MRO, metaclass, decorator and method-implementation dependence |
| `Closure.ClosedIsLeast` | crates/soac_contracts/src/diagnostics.rs:70-114 | iterating the rounds from any starting set gives the least closed set above it |
| `Closure.CloseIgnored` | crates/soac_contracts/src/diagnostics.rs:20-114 | the loop until stable computes that set, and goes round at most once per catalogued class or function plus once |
| `Closure.CollectSeeds` | crates/soac_contracts/src/diagnostics.rs:25-66 | the loop over the diagnostics collects exactly the owners and the related definitions of the suppressed ones, and taints the whole module for a module scope or a range without owner |
| `Closure.SeedsOf` | crates/soac_contracts/src/diagnostics.rs:30-65 | one diagnostic taints the module exactly if it is suppressed and has the module as its scope or a range without owner, and otherwise adds its owners and related definitions |
| `Closure.FindTainted` | crates/soac_contracts/src/diagnostics.rs:71-108 | one round adds exactly the catalogued classes and functions that depend on an ignored definition |
| `Closure.FindOwners` | crates/soac_contracts/src/diagnostics.rs:38-58 | the owners of a range are exactly the classes and functions that overlap it, by themselves or through a decorator expression |
| `Closure.IgnoredOrderIndependent` | crates/soac_contracts/src/diagnostics.rs:20-114 | the set does not depend on the order or repetition of classes, functions or diagnostics |
| `Closure.IgnoredGrows` | crates/soac_contracts/src/diagnostics.rs:20-114 | adding diagnostics never removes a definition from the set |
| `Closure.NothingSuppressed` | crates/soac_contracts/src/diagnostics.rs:12-19 | without a suppressed diagnostic nothing is ignored |
| `DemotionSteps.DemoteSuppressedRegions` | crates/soac_contracts/src/diagnostics.rs:12-262 | the pass over all catalogues, with its early return, rewrites the facts as specified |
| `DemotionSteps.RewriteBindings` | crates/soac_contracts/src/diagnostics.rs:116-127 | the edits of the global bindings give the specified bindings |
| `DemotionSteps.RewriteClass` | crates/soac_contracts/src/diagnostics.rs:128-192 | the in-place edits of one class give the specified class |
| `DemotionSteps.RewriteFields` | crates/soac_contracts/src/diagnostics.rs:148-169 | the same for its instance fields |
| `DemotionSteps.RewriteMethods` | crates/soac_contracts/src/diagnostics.rs:170-179 | the same for its methods |
| `DemotionSteps.RewriteMembers` | crates/soac_contracts/src/diagnostics.rs:180-191 | the same for its class members |
| `DemotionSteps.RewriteFunctions` | crates/soac_contracts/src/diagnostics.rs:193-202 | the same for the functions |
| `DemotionSteps.RetainBindings` | crates/soac_contracts/src/diagnostics.rs:203-215 | the nominal bindings kept are exactly those that mention no ignored definition, in order |
| `DemotionSteps.RewriteSites` | crates/soac_contracts/src/diagnostics.rs:216-236 | the same for attribute sites |
| `DemotionSteps.RewriteCalls` | crates/soac_contracts/src/diagnostics.rs:237-262 | the same for call sites |
| `DemotionSteps.RewriteSignature` | crates/soac_contracts/src/diagnostics.rs:371-383 | the signature edit demotes return type and parameters, and marks the signature if anything changed |
| `Exactness.DemotionExact` | crates/soac_contracts/src/diagnostics.rs:12-262 | after the pass no type, default, descriptor, call target, site or binding mentions an ignored definition and everything an ignored definition owns has given up its proposals, while every value that is neither owned by nor refers to one is unchanged, part by part: each parameter type, default, return type, field type, descriptor and policy by itself, and the nominal bindings in order and with repetition |
| `Exactness.DemotionIsClean` | crates/soac_contracts/src/diagnostics.rs:116-262 | the first half, for every set of definitions; a site in an ignored function gives up its value, receiver and class, a call its receiver, targets, binding, signature and result |
| `Exactness.DemotionTouchesNothingElse` | crates/soac_contracts/src/diagnostics.rs:116-262 | the second half, for every set of definitions; uncertainty gains the one reason exactly where something was given up |
| `Exactness.DemotionDetermined` | crates/soac_contracts/src/diagnostics.rs:116-262 | the pass is the only coarsening of the facts with these two properties, so that giving up less leaves a mention and giving up more touches something else |
| `Demotion.DemotionIdempotent` | crates/soac_contracts/src/diagnostics.rs:12-262 | demoting twice equals demoting once |
| `Demotion.DemotedIgnored` | crates/soac_contracts/src/diagnostics.rs:20-114 | demotion removes none of what the ignored set is computed from |
| `Demotion.DemoteAbsorbs` | crates/soac_contracts/src/diagnostics.rs:116-262 | demoting for a larger set after a smaller one equals demoting for the larger one alone |
| `Demotion.EarlyReturnAgrees` | crates/soac_contracts/src/diagnostics.rs:12-19 | the early return is the general path on an empty set |
| `Exactness.DemotionCoarsens` | crates/soac_contracts/src/diagnostics.rs:116-262 | demotion makes no value, default, descriptor, site, participation or binding list more precise |
| `Exactness.DemotionMonotone` | crates/soac_contracts/src/diagnostics.rs:12-262 | adding diagnostics, suppressed or not and wherever they stand, never makes any fact more precise |
| `Exactness.RequiredAfterDemotion` | crates/soac_contracts/src/facts.rs:687-697 | a field of a demoted class still requires a write check exactly when it did before and neither its class, its declaration, its annotation, its type nor its descriptor involves an ignored definition |
| `Exactness.DemotionOnlyDropsWriteChecks` | crates/soac_contracts/src/facts.rs:687-697 | under every policy the write checks of a demoted class are among those required before, with the same type |
| `Canonical.NormRefers` | crates/soac_contracts/src/diagnostics.rs:282-333 | whether a type refers to an ignored definition is unchanged by normalization |
| `Canonical.ValueCommutes` | crates/soac_contracts/src/diagnostics.rs:353-360 | demoting and normalizing a value commute whenever normalization succeeds |
| `Canonical.DefaultCommutes` | crates/soac_contracts/src/diagnostics.rs:362-369 | the same for defaults |
| `Canonical.SignatureCommutes` | crates/soac_contracts/src/diagnostics.rs:371-383 | the same for signatures |
| `Canonical.CanonicalizationIdempotent` | crates/soac_contracts/src/validation.rs:6-84 | the canonical facts are their own canonical form and are already demoted, which is what a loader insists on |
| `Commutation.CanonicalizationAbsorbsDemotion` | crates/soac_contracts/src/validation.rs:6-84 | facts that were demoted before have the same canonical form as the facts themselves, whenever they can be normalized |
| `Commutation.ArrangingCommutes` | crates/soac_contracts/src/validation.rs:6-78 | sorting and normalizing every catalogue commutes with demotion for any set of definitions |
| `Commutation.ArrangedIgnored` | crates/soac_contracts/src/diagnostics.rs:20-114 | sorting and normalizing change nothing that the ignored set is computed from |
| `Reordering.CanonicalOrderIndependent` | crates/soac_contracts/src/validation.rs:6-77 | reordering overrides, dependencies, bindings, classes with their methods and members, functions, nominal bindings, sites, calls with their targets, and diagnostics changes neither the canonical facts nor the error, as long as entries with equal keys keep their order |
| `Reordering.ReorderedExactly` | crates/soac_contracts/src/validation.rs:6-77 | for facts in normal form nothing else goes unseen: they are arranged alike exactly if they are reordered in that way |
| `Reordering.ShuffledReordered` | crates/soac_contracts/src/validation.rs:6-77 | if entries with the same key are the same, in particular if no key repeats, every order counts as such a reordering |
| `Reordering.ShuffledClass` | crates/soac_contracts/src/validation.rs:26-34 | the same inside a class for its methods and members |
| `Reordering.RepeatedNameMatters` | crates/soac_contracts/src/validation.rs:9-11 | two different bindings of one name keep their order, so exchanging them is visible |
| `Hex.RoundTrip` | crates/soac_contracts/src/identity.rs:104-143 | decoding undoes encoding |
| `Hex.DecodeEncodes` | crates/soac_contracts/src/identity.rs:104-143 | encoding undoes decoding, so every value has one spelling |
| `Hex.DecodeAccepts` | crates/soac_contracts/src/identity.rs:114-143 | exactly the strings of even length and lower-case digits decode |
| `Hex.EncodeHex` | crates/soac_contracts/src/identity.rs:104-112 | the encoding loop writes the two digits of every byte |
| `Hex.DecodeHex` | crates/soac_contracts/src/identity.rs:114-143 | the decoding loop returns the bytes, and refuses any other length or character |
| `Manifest.ValidateManifest` | crates/soac_contracts/src/artifact.rs:547-634 | the check accepts exactly the manifests whose versions, environment, names, dependency records and generation are right, with agreement stated over all pairs of records at once |
| `Manifest.ValidateConsumed` | crates/soac_contracts/src/artifact.rs:585-629 | the one-pass merge accepts exactly when every two records of the same name agree on the five identity fields and on each optional fingerprint both carry, and every record agrees with a producer of the same generation |
| `Manifest.ConsumeModule` | crates/soac_contracts/src/artifact.rs:587-628 | the same for one module added to what has been accepted |
| `Manifest.Consume` | crates/soac_contracts/src/artifact.rs:588-611 | one record is refused exactly when it contradicts some earlier one; an absent value masks no later conflict |
| `Manifest.RepresentativeDecides` | crates/soac_contracts/src/artifact.rs:588-611 | the merged record is compatible with a new one exactly when every earlier record is |
| `Manifest.ValidateModules` | crates/soac_contracts/src/artifact.rs:574-584 | names are valid and distinct, and the table maps every name to its module |
| `Manifest.ValidateDependencies` | crates/soac_contracts/src/artifact.rs:526-545 | a dependency list is accepted exactly when its names are valid, distinct and not the owner |
| `Publication.ValidityOrderIndependent` | crates/soac_contracts/src/artifact.rs:574-629 | a list of modules is accepted exactly when every reordering of the modules, each with its dependencies in any order, is accepted |
| `Publication.BuildOrderIndependent` | crates/soac_contracts/src/artifact.rs:142-156 | any reordering of modules or of their dependencies builds the same manifest and generation, or fails alike |
| `Publication.SignatureOrderIndependent` | crates/soac_contracts/src/artifact.rs:245-260 | and gives the same signed bytes |
| `Publication.SignedVerifies` | crates/soac_contracts/src/artifact.rs:364-390 | a signed manifest verifies under the signer against its own generation and environment, and comes back in canonical form |
| `Publication.AcceptedIsAuthentic` | crates/soac_contracts/src/artifact.rs:364-390 | whatever is accepted carries a valid 64-byte signature over its own payload, is canonical and valid, and is the generation and environment expected |
| `Publication.TrustedIsSorted` | crates/soac_contracts/src/artifact.rs:513-524 | an accepted manifest lists distinct modules in order, each with sorted dependencies |
| `Publication.ModuleIndex` | crates/soac_contracts/src/artifact.rs:280-289 | binary search returns the one listed module of that name, and otherwise reports it missing |
| `Publication.ShardVerifies` | crates/soac_contracts/src/artifact.rs:334-361 | an encoded shard verifies against the index made from it |
| `Publication.ShardOrderIndependent` | crates/soac_contracts/src/validation.rs:6-77 | facts that are reordered give the same shard, hence the same bytes, digest and index, or fail alike |
| `Publication.OnlyItsOwnShard` | crates/soac_contracts/src/artifact.rs:334-361 | with digests that do not collide the index of a shard admits no other bytes |
| `Publication.AcceptedModuleIsPublished` | crates/soac_contracts/src/artifact.rs:291-332 | with digests that do not collide, whatever is accepted for a listed module is the published shard with its facts, under its policy and with its dependencies up to order |
| `Publication.PublishedModuleVerifies` | crates/soac_contracts/src/artifact.rs:291-332 | encoding, listing, signing and authenticating a module and then verifying its shard returns the canonical facts, for dependencies in any order, exactly when the facts also validate against the source |
| `Inputs.CapturedHoldsExactly` | crates/soac_contracts/src/deployment.rs:660-761 | an input captured on one filesystem verifies on another exactly when kind and canonical path agree and, for files, the bytes agree, or, for directories, every recorded filter selects the same entries and, if there is any filter, every name in the new listing can be read |
| `Inputs.UnselectedEntriesIgnored` | crates/soac_contracts/src/deployment.rs:700-731 | entries that no recorded filter selects do not matter as long as their names can be read |
| `Inputs.UnreadableNameBreaksView` | crates/soac_contracts/src/deployment.rs:702-709 | an unselected entry whose name is not UTF-8 does make verification fail |
| `Inputs.ViewsAgree` | crates/soac_contracts/src/deployment.rs:710-727 | two listings look alike through a filter exactly when it selects the same entries from both, in whatever order they were listed |
| `Inputs.VerifyInputs` | crates/soac_contracts/src/deployment.rs:738-761 | the loop accepts exactly when every input is captured again as recorded |
| `Deployment.CompareRoutes` | crates/soac_contracts/src/deployment.rs:514-594 | on a fixed filesystem, if the shared-read snapshot succeeds, its list for each deployed module equals the per-consumer result in value and order, and other names fail on both routes |
| `Deployment.SnapshotIffConsumers` | crates/soac_contracts/src/deployment.rs:514-594 | the snapshot succeeds exactly when every deployed module verifies on its own; with no module it still checks the descriptor and its inputs |
| `Deployment.VerifiedSnapshot` | crates/soac_contracts/src/deployment.rs:514-552 | the loop with one read per source succeeds exactly when every dependency verifies by itself, and lists the expectations of every module in canonical order |
| `Deployment.VerifiedDependencies` | crates/soac_contracts/src/deployment.rs:557-594 | the loop with one read per dependency succeeds exactly when the importer is deployed and its dependencies verify |
| `Deployment.ObserveShared` | crates/soac_contracts/src/deployment.rs:378-405 | an observation made for another dependency decides exactly as a fresh read would, size, digest and hash included |
| `Deployment.Collect` | crates/soac_contracts/src/deployment.rs:519-551 | the shared loop gathers for every deployed module the expectations of its dependencies in descriptor order |
| `Deployment.Recompute` | crates/soac_contracts/src/deployment.rs:570-593 | the per-consumer loop gathers the same for one importer |
| `Deployment.Validate` | crates/soac_contracts/src/deployment.rs:408-504 | a descriptor is accepted exactly when its modules and imports are distinct, its names and paths valid and every dependency has an expected fingerprint |
| `Deployment.ExpectedIdentifies` | crates/soac_contracts/src/deployment.rs:172-263 | if resolutions and configurations do not collide, equal fingerprints come from dependencies that differ at most in their importer: same module, bytes, source and effective configuration |
| `Deployment.InputsCoverSources` | crates/soac_contracts/src/deployment.rs:571-585 | once the recorded inputs hold, the file behind a system dependency has the claimed size and digest, so the fresh read can only fail on the source hash |
| `Batches.MakeNodeidBatches` | scripts/run_pytest_parallel.py:270-284 | for every node list and every number of jobs the batches partition the nodes occurrence by occurrence; every batch is non-empty, within one file, no larger than the target, larger ones first; a node of a singleton group is alone; a group of one file that fits runs side by side in one batch; and every title says what its batch runs |
| `Batches.MakeFileBatches` | scripts/run_pytest_parallel.py:211-267 | the same within one file, no two neighbouring ordinary batches would have fitted into one, and a title of the file carries the number of its batch and its size |
| `Batches.Pack` | scripts/run_pytest_parallel.py:235-267 | packing keeps every node in order, keeps units whole, isolates singleton groups and flushes only when the next unit does not fit; a batch of one unit has its title, and one of several consecutive units that of the file with its number and size |
| `Batches.MakeUnits` | scripts/run_pytest_parallel.py:218-233 | groups that fit become one unit each, and the units list the groups in order |
| `Batches.Chunk` | scripts/run_pytest_parallel.py:224-233 | a group that is too large is cut into consecutive chunks, full ones before a last non-empty one, with titles that number them |
| `Batches.PackUnit` | scripts/run_pytest_parallel.py:254-264 | one unit runs alone, joins the open batch if it fits, or starts the next one after a flush; the open units are the last ones, they make up the open batch, and every batch that is flushed has its title |
| `Batches.GroupNodes` | scripts/run_pytest_parallel.py:214-216 | filling a dictionary of lists gives the keys in order of first occurrence, each with its nodes in order |
| `Batches.GroupsPartition` | scripts/run_pytest_parallel.py:275-277 | grouping neither loses nor repeats a node |
| `Batches.Target` | scripts/run_pytest_parallel.py:274-274 | the target is at least one and at most four, and otherwise the least size that spreads the nodes over the jobs |
| `Batches.LastFrom` | scripts/run_pytest_parallel.py:197-204 | the last occurrence of a separator, or -1 |
| `Batches.FirstFrom` | scripts/run_pytest_parallel.py:207-208 | the first occurrence of a separator, or the end |
| `Monitor.BatchMonitor.constructor` | scripts/run_pytest_parallel.py:64-70 | a new monitor is empty and not cancelled |
| `Monitor.BatchMonitor.RequestCancel` | scripts/run_pytest_parallel.py:72-76 | cancellation latches and only the first signal is remembered |
| `Monitor.BatchMonitor.Launch` | scripts/run_pytest_parallel.py:78-101 | nothing starts or changes once cancelled or if the spawn fails; otherwise the process is registered and its batch active |
| `Monitor.BatchMonitor.Finish` | scripts/run_pytest_parallel.py:103-111 | the registered process is handed to exactly this caller and is no longer registered or active |
| `Monitor.BatchMonitor.Stop` | scripts/run_pytest_parallel.py:113-118 | cancels, and hands every registered process to this caller, leaving the registry empty |
| `Monitor.BatchMonitor.Snapshot` | scripts/run_pytest_parallel.py:120-123 | lists exactly the active batches, longest running first |
| `Monitor.ExactlyOnePlace` | scripts/run_pytest_parallel.py:78-118 | in every interleaving of workers, signals and shutdown each spawned process is in hand of its launcher, registered, claimed by one terminator or terminated, never two of these, and in hand only while that launcher holds the process lock |
| `Monitor.StepAccounted` | scripts/run_pytest_parallel.py:78-118 | every step moves exactly the processes it names |
| `Monitor.NoLaunchAfterStop` | scripts/run_pytest_parallel.py:113-118 | after `stop` has taken the registry, it stays empty and no later launch spawns, in every continuation |
| `Monitor.OverMeansTerminated` | scripts/run_pytest_parallel.py:782-802 | when shutdown is over exactly the processes ever spawned have been terminated and no batch is active |
| `Monitor.RunSafe` | scripts/run_pytest_parallel.py:542-569 | the lock discipline and the accounting of processes hold after every legal run, timeouts and double `finish` included |
| `Monitor.DisciplineKept` | scripts/run_pytest_parallel.py:78-118 | every step keeps the lock exclusive, registration late, and the closed gate closed |
| `Monitor.FirstSignalKept` | scripts/run_pytest_parallel.py:72-76 | cancellation is never withdrawn and the first signal stays the reported one |
| `Monitor.StepProgresses` | scripts/run_pytest_parallel.py:542-569 | every step of a thread uses up some of the potential of the run |
| `Monitor.RunsAreShort` | scripts/run_pytest_parallel.py:542-569 | whatever the interleaving, the signals and the processes that end, n workers and the shutdown take at most 17n + 7 steps |
| `Monitor.RunBounded` | scripts/run_pytest_parallel.py:542-569 | from every disciplined state the steps that threads take in a run are bounded by the potential it uses up |
| `Monitor.MaximalRunEnds` | scripts/run_pytest_parallel.py:757-802 | a run in which the program has taken every step it can is over, with exactly the spawned processes terminated and no batch active, or, exactly otherwise, all threads wait, for a live process and without cancellation |
| `Monitor.NeverStuck` | scripts/run_pytest_parallel.py:757-802 | there is no deadlock: unless shutdown is over or every thread waits, the program has a step that depends on no signal, deadline or process |
| `Monitor.ShutdownCompletes` | scripts/run_pytest_parallel.py:782-802 | once cancelled, finished or faced with an exception, shutdown completes by steps of the program alone, even if no process ends by itself and no deadline passes |
| `Monitor.RunCompletes` | scripts/run_pytest_parallel.py:757-802 | from every safe state the run completes without signals if the processes it waits for end |
| `Monitor.StuckExactly` | scripts/run_pytest_parallel.py:757-802 | the program has no step of its own exactly if it is over or every thread waits: the main thread for a future, each worker for its process or for a thread of the full pool |
| `Monitor.WaitsForProcess` | scripts/run_pytest_parallel.py:552-572 | when every thread waits it is for a live process that is still registered, so that `stop` would terminate it, and no worker waits for the output of a batch that timed out |
| `Monitor.HandledKept` | scripts/run_pytest_parallel.py:552-572 | in every step the process of a worker stays registered until somebody has taken on its termination |
| `Monitor.LaunchRuns` | scripts/run_pytest_parallel.py:78-101 | a launch that runs undisturbed through the machine leaves what the method leaves, whether cancelled, failing to spawn or started |
| `Monitor.FinishRuns` | scripts/run_pytest_parallel.py:103-111 | an undisturbed finish leaves what the method leaves, and terminates the process it hands out |
| `Monitor.StopRuns` | scripts/run_pytest_parallel.py:113-118 | an undisturbed stop leaves what the method leaves, and terminates the processes it hands out |
| `Migration.WithoutSourceBind` | scripts/migrate_cpython_shared_source.py:30-53 | fails unless exactly one line is the requested bind, and otherwise returns every other byte: the original is the result with that one line put back in its place |
| `Migration.Scan` | scripts/migrate_cpython_shared_source.py:34-47 | the loop counts one match exactly when one line matches, and then keeps all the other lines in order |
| `Migration.BindShortens` | scripts/migrate_cpython_shared_source.py:30-53 | the rewritten table differs from the original |
| `Migration.Host.Promote` | scripts/migrate_cpython_shared_source.py:143-203 | for every set of failing steps no tree is lost or copied; a run that fails its checks changes no layout; otherwise the end is the promoted layout exactly when both renames happen, neither layout exactly on the named faults, and success means promoted and recorded |
| `Migration.Host.Prepare` | scripts/migrate_cpython_shared_source.py:144-175 | the checks pass exactly when the machine is ready, and the table is saved before it is changed |
| `Migration.Host.Switch` | scripts/migrate_cpython_shared_source.py:176-200 | the steps and their compensations lead to the specified layout |
| `Migration.Host.MoveTrees` | scripts/migrate_cpython_shared_source.py:183-194 | both renames happen, or none, unless moving the host tree back fails too |
| `Migration.Host.RestoreOverlay` | scripts/migrate_cpython_shared_source.py:195-200 | the overlay comes back only onto its mount point, and the table only after the overlay |
| `Migration.MixedExactly` | scripts/migrate_cpython_shared_source.py:176-200 | the layout ends neither original nor promoted exactly when a needed compensation fails |
| `Migration.CompensationsSuffice` | scripts/migrate_cpython_shared_source.py:176-200 | if no compensation fails the run ends in the full original or the full promoted layout, whatever else fails |
| `Migration.TreesKept` | scripts/migrate_cpython_shared_source.py:176-200 | no source tree is lost or copied whatever fails, compensations included |
| `Migration.SingleFaultIsSafe` | scripts/migrate_cpython_shared_source.py:176-200 | a single fault never mixes the layouts if the host tree is the recorded one |
| `Migration.ChangedHostTreeNeedsCompensation` | scripts/migrate_cpython_shared_source.py:183-200 | if the host tree is not the recorded one, one failing compensation does mix them |
| `Migration.UnrecordedExactly` | scripts/migrate_cpython_shared_source.py:201-203 | the layout is promoted although the run fails exactly when both trees moved and the last check or the record write fails |
| `Migration.UnrecordedExample` | scripts/migrate_cpython_shared_source.py:201-203 | a machine that passes every check, for any two paths, on which either of these faults does that |
| `Migration.PromotedIsRefused` | scripts/migrate_cpython_shared_source.py:151-162 | a promoted layout fails the checks of every later run, whatever the record says |
| `Migration.ChangedIsRefused` | scripts/migrate_cpython_shared_source.py:151-169 | so does every other layout that a run has changed, since the overlay is gone or the table is not the saved one |
| `Migration.Host.PromoteTwice` | scripts/migrate_cpython_shared_source.py:143-203 | after a run with any failing steps, a second one without faults succeeds exactly if the layout is back where it was, the machine passes the checks and the host tree is clean at the recorded revision; then it is promoted and recorded, and otherwise nothing changes |
| `Text.LinesConcat` | scripts/migrate_cpython_shared_source.py:34-34 | splitting into lines with their terminators loses nothing |
| `Text.SplitJoins` | crates/soac_contracts/src/deployment.rs:229-231 | splitting on a separator loses nothing and no part contains it |

## Left out

- Permutations.Generate: the yields are collected in a list instead of being taken one at a time.
- Queens.ExpectedSmallBoards: the count 92 that two slices write out for eight columns is not evaluated; the list for eight columns is the subject of `Queens.ExpectedPipeline`.
- Queens.ExpectedPipeline: the library permutations are taken as what the library documents, all arrangements in lexicographic order.
- Meaning.NormalizationPreservesMeaning: the meaning of a callable or a type variable is a function of the meaning of its parts, with the constraints of a type variable read as a set.
- Manifest.ValidateManifest: which of several errors is reported is not stated, only when the check fails.
- Publication.SignedVerifies: holds for signing keys whose signatures have 64 bytes and verify, and for encodings within the size limits, which the success of signing already says.
- Publication.PublishedModuleVerifies: facts are validated against a source by a predicate parameter; the rules of `crates/soac_contracts/src/validation.rs:90-1205` are not part of this model.
- Inputs.CapturedHoldsExactly: assumes digests without collisions, and a filesystem that does not change during one capture, so the second bound on a file that grows while it is read has no effect here.
- Deployment.Validate: the trust anchor, the target interpreter and its ABI fingerprint, the shape of recorded inputs and the environment variables are one predicate parameter.
- Deployment.CompareRoutes: says which route succeeds and with what, not which error is reported.
- Batches.MakeNodeidBatches: divisions are exact where the source divides floating-point numbers; batch labels are structured values whose text is not modelled.
- Monitor.BatchMonitor.Snapshot: the order of batches that started at the same time is not stated.
- Monitor.OverMeansTerminated: terminating a process group always takes effect, and a process stands for its whole group, which has ended once nothing holds its output open; clocks, stack capture and output are not modelled, only that a timeout finishes a batch twice.
- Monitor.NeverStuck: a queued batch may start in any order while a thread of the pool is free, and a lock that is free is taken by any thread that wants it, with no fairness assumed.
- Monitor.BatchMonitor.Launch: the second lock, which only guards the table of active batches, makes its accesses atomic and is not a step of its own.
- Migration.Host.Promote: a step that fails has no effect; a checkout is its revision and whether it is clean; the checks on mounts and paths before the first change are one step that may fail.
- `validate_module_facts`, lowering, the optimizer, the typed intermediate representation and the JIT.
- SHA-256, Ed25519 and JSON encoding themselves.
- Verification of a complete generation on disk (`crates/soac_contracts/src/artifact.rs:407-416`): a loop over `verify_shard`, which is `Publication.VerifyShard`.
- Staging a migration, the CPython build scripts, benchmark preparation and reporting, configuration parsing and the web assets: plumbing around external tools, or easy members.
