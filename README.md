# GridTools core, modelled in Dafny

GridTools is a C++ library for stencil computations on structured and icosahedral grids.
This project models the core of it:

- **The front end.**
  - A computation specification is built from multi-stage passes (MSS).
  - Each pass is an execution order plus elementary stage functions (ESF) plus software caches.
  - The front end also binds fields to placeholders and derives each argument's intent from the read-write arguments of its stages.
- **The compile-time metafunctions.**
  - ESF descriptors and their location types.
  - Splitter levels and their index enumeration.
  - The computation of a functor's do-method intervals.
  - The cache filter.
  - The membership test on type lists.
  - The expandable-parameter trait specialisations.
- **Colour dispatch in the icosahedral host back end.**
- **The storage layout rule for icosahedral storages, as the six layouts of its test fix it.**
- **Example and regression kernels.**
  - The neighbour sum on cells.
  - The 5-point Laplacian of the getting-started guide.
  - The naive and tiled Laplacian traversals.
  - The expandable-parameter copy kernel.
  - The direction-dispatched boundary condition.
  - The verifier that compares two fields inside their halo.
  - The Fortran array adapter's index mapping.
- **The Python helper `join_with_prefix`.**

Modelling conventions:

- Each source file's model follows the file's form.
- Compile-time type functions are pure datatypes and functions.
- Code that writes arrays in nested loops is a `method` over Dafny `array3`, proved against a specification.
- An object that is updated through a reference is a `class`. This applies to the iterate domain that the host back end calls into, the verifier, and the evaluation object of the copy kernel.
- Field values are mathematical integers. The verifier's comparison works over `real`.

One module per source file. Shared modules:

- `Wrappers`: Option and Result.
- `Accessors`: intents, extents and accessors.
- `Sequences`: membership, flatten and dedup.
- `Levels`: splitter levels and intervals.

## Model

| member | source | states |
|---|---|---|
| Accessors.InAccessor | docs_src/manuals/getting_started/code/gt_smoothing.hpp:33 | an `in_accessor` has intent `in`, the given index and the given extent |
| Accessors.InOutAccessor | docs_src/manuals/getting_started/code/gt_smoothing.hpp:34 | an `inout_accessor` has intent `inout`, zero extent, and the only offset inside its extent is the centre |
| Sequences.IsThereInSequence | unit_tests/common/generic_metafunctions/test_is_there_in_sequence.cpp:16-20 | true iff some element equals the query |
| Sequences.IsThereInSequenceTest | unit_tests/common/generic_metafunctions/test_is_there_in_sequence.cpp:16-20 | in `[int, float, char]`, int (first) and char (last) are found and long is not |
| Sequences.Flatten | include/gridtools/stencil_composition/frontend/run.hpp:137-139 | an element is in the flattening iff it is in one of the lists |
| Sequences.FlattenAppend | include/gridtools/stencil_composition/frontend/run.hpp:137-139 | flattening distributes over concatenation: passes keep their order |
| Sequences.Dedup | include/gridtools/stencil_composition/frontend/run.hpp:140 | same members as the input, no duplicates, an order-preserving subsequence of the input |
| Sequences.DedupOfDistinct | include/gridtools/stencil_composition/frontend/run.hpp:140 | dedup of a duplicate-free list is that list unchanged |
| Composition.Mss.Stage | include/gridtools/stencil_composition/frontend/run.hpp:32-38 | appends exactly one ESF with no extent (`void`) at the end; the order, the earlier stages and the caches are unchanged |
| Composition.Mss.StageWithExtent | include/gridtools/stencil_composition/frontend/run.hpp:40-46 | appends exactly one ESF carrying the given extent at the end; all else unchanged |
| Composition.EmptySpec.AsMss | include/gridtools/stencil_composition/frontend/run.hpp:49-50 | an empty spec is a pass with its order and caches and no stages |
| Composition.EmptySpec.Stage | include/gridtools/stencil_composition/frontend/run.hpp:32-38 | staging on an empty spec gives the one-stage pass with the same order and caches |
| Composition.EmptySpec.StageWithExtent | include/gridtools/stencil_composition/frontend/run.hpp:40-46 | the same, with the stage carrying the extent |
| Composition.EmptySpec.IjCached | include/gridtools/stencil_composition/frontend/run.hpp:51-55 | appends one IJ cache without policies per argument, in argument order; keeps the order and the earlier caches; the result is still an empty spec |
| Composition.EmptySpec.KCached | include/gridtools/stencil_composition/frontend/run.hpp:56-92 | appends one K cache per argument, in order, each carrying the policy list of the chosen overload |
| Composition.CachesOf | include/gridtools/stencil_composition/frontend/run.hpp:52-57 | one cache of the given kind and policies per argument, positionally |
| Composition.PolicyList | include/gridtools/stencil_composition/frontend/run.hpp:56-92 | the overload's policy list holds fill and flush exactly as the leading tags do, has no duplicates, and both together are always `[fill, flush]` |
| Composition.ExecuteParallel | include/gridtools/stencil_composition/frontend/run.hpp:95 | one parallel pass with no stages and no caches |
| Composition.ExecuteForward | include/gridtools/stencil_composition/frontend/run.hpp:96 | one forward pass with no stages and no caches |
| Composition.ExecuteBackward | include/gridtools/stencil_composition/frontend/run.hpp:97 | one backward pass with no stages and no caches |
| Composition.MultiPass | include/gridtools/stencil_composition/frontend/run.hpp:99-102 | the spec holds the passes in the given order |
| Composition.ArgsUpTo | include/gridtools/stencil_composition/frontend/run.hpp:104-109 | the placeholders `arg<0>` … `arg<n-1>`, in order, distinct |
| Composition.Run | include/gridtools/stencil_composition/frontend/run.hpp:107-118 | the spec is the composition applied to `arg<0..n-1>`; the field map's keys are exactly those placeholders, and `arg<i>` is bound to the i-th field |
| Composition.RunSingleStage | include/gridtools/stencil_composition/frontend/run.hpp:120-126 | equals a parallel spec with one stage of F over all args, with the same binding as `run` |
| Composition.EsfRwArgs | include/gridtools/stencil_composition/frontend/run.hpp:134-135 | a placeholder is a read-write arg of an ESF iff the ESF binds it to an `inout` parameter |
| Composition.RwArgsFrom | include/gridtools/stencil_composition/frontend/run.hpp:134-135 | membership iff some position binds the placeholder to an `inout` accessor |
| Composition.MssRwArgsMembers | include/gridtools/stencil_composition/frontend/run.hpp:134-135 | a pass's read-write args are exactly those written by one of its stages |
| Composition.PerPassRwArgsMembers | include/gridtools/stencil_composition/frontend/run.hpp:137-139 | the flattened per-pass lists hold exactly the placeholders written somewhere in the spec |
| Composition.AllRwArgs | include/gridtools/stencil_composition/frontend/run.hpp:137-140 | no duplicates, and a placeholder is a member iff some stage of some pass writes it |
| Composition.GetArgIntent | include/gridtools/stencil_composition/frontend/run.hpp:142-148 | `inout` iff the placeholder is written by the spec, `in` iff it is not |
| Composition.StageKeepsInOut | include/gridtools/stencil_composition/frontend/run.hpp:32-38 | adding a stage to the last pass never turns an `inout` argument back into `in` |
| Composition.MultiPassIntent | include/gridtools/stencil_composition/frontend/run.hpp:99-102 | an argument is `inout` in a concatenated multi-pass iff it is `inout` in one of the parts |
| Composition.StageWithExtentIsStage | include/gridtools/stencil_composition/frontend/run.hpp:40-46 | `stage_with_extent` and `stage` produce the same pass except for the new stage's extent |
| Composition.KCachedFillFlushCommute | include/gridtools/stencil_composition/frontend/run.hpp:75-92 | `k_cached(fill, flush, …)` and `k_cached(flush, fill, …)` are identical and carry `[fill, flush]` |
| Caches.EsfArgs | unit_tests/stencil-composition/caches/test_cache_metafunctions.cpp:44-49 | the union of the ESF argument lists, as membership |
| Caches.CachesUsedByEsfs | unit_tests/stencil-composition/caches/test_cache_metafunctions.cpp:44-55 | a cache is kept iff its placeholder is an argument of some ESF; the result is an order-preserving subsequence of the caches |
| Caches.FilterUsed | unit_tests/stencil-composition/caches/test_cache_metafunctions.cpp:51-55 | the filter keeps exactly the caches on used placeholders, in input order |
| Caches.FilterKeepsMultiplicity | unit_tests/stencil-composition/caches/test_cache_metafunctions.cpp:44-55 | a used cache keeps its multiplicity: a placeholder shared by two ESFs yields its cache once; an unused one is dropped whatever its kind |
| Caches.CacheMetafunctionTest | unit_tests/stencil-composition/caches/test_cache_metafunctions.cpp:22-55 | the test's exact result `[cache1, cache2]` |
| Levels.LevelToIndex | unit_tests/FunctorDoMethods.cpp:62-64 | a valid level's index is non-negative and identifies its splitter |
| Levels.IndexToLevel | unit_tests/FunctorDoMethods.cpp:62-64 | every index gives a valid level on splitter `n / 6` |
| Levels.IndexRoundTrip | unit_tests/FunctorDoMethods.cpp:62-64 | `level_to_index(index_to_level(n)) == n` |
| Levels.LevelRoundTrip | unit_tests/FunctorDoMethods.cpp:62-64 | `index_to_level(level_to_index(l)) == l` for valid levels |
| Levels.IndexOrderIsLevelOrder | unit_tests/FunctorDoMethods.cpp:100-102 | level order is index order, in both directions |
| Levels.EnumerationTest | unit_tests/FunctorDoMethods.cpp:100-102 | indices 0..19 round-trip and visit levels in strictly increasing order |
| Levels.SplitterNeighbours | unit_tests/FunctorDoMethods.cpp:31-44 | level (s, -1) and level (s, 1) have consecutive indices |
| DoMethods.HasDoSimple | unit_tests/FunctorDoMethods.cpp:106-108 | true exactly for the intervals the functor declares |
| DoMethods.HasDoSimpleTest | unit_tests/FunctorDoMethods.cpp:106-108 | true for [(1,1),(2,-1)] and [(1,1),(3,-2)], false for [(0,1),(3,-2)] |
| DoMethods.Clip | unit_tests/FunctorDoMethods.cpp:80-86 | clipping succeeds iff the interval overlaps the axis; the result is the intersection and lies inside both; inside the axis it is unchanged |
| DoMethods.ClipAll | unit_tests/FunctorDoMethods.cpp:80-86 | the result holds exactly the clipped parts of the declarations that meet the axis; all are valid and inside the axis |
| DoMethods.ClipAllSingle | unit_tests/FunctorDoMethods.cpp:80-86 | one declaration contributes its clipped part, or nothing when it misses the axis |
| DoMethods.ClipAllAppend | unit_tests/FunctorDoMethods.cpp:80-86 | clipping distributes over concatenation, so the clipped parts keep the declaration order and each declaration contributes at most once |
| DoMethods.Insert | unit_tests/FunctorDoMethods.cpp:80-86 | sorted insertion keeps the order and adds exactly the element |
| DoMethods.SortByStart | unit_tests/FunctorDoMethods.cpp:80-86 | sorted by start and a permutation of the input |
| DoMethods.FirstOverlap | unit_tests/FunctorDoMethods.cpp:47-55 | none found iff the sorted intervals are ordered and disjoint; otherwise two neighbouring overlapping intervals |
| DoMethods.ComputeFunctorDoMethods | unit_tests/FunctorDoMethods.cpp:80-86 | on success: ordered, disjoint, inside the axis, a permutation of the clipped declarations; on failure: two overlapping intervals among the clipped declarations, occurring twice if they are equal |
| DoMethods.DisjointDeclarationsSucceed | unit_tests/FunctorDoMethods.cpp:80-86 | if no two clipped declarations overlap, the computation succeeds |
| DoMethods.Functor0Test | unit_tests/FunctorDoMethods.cpp:11-18 | over axis [(0,-3),(3,3)] the result is the single one-level interval [(3,-1),(3,-1)] |
| DoMethods.Functor1Test | unit_tests/FunctorDoMethods.cpp:21-28 | Functor1's one interval is returned unchanged |
| DoMethods.Functor2Test | unit_tests/FunctorDoMethods.cpp:31-44 | Functor2's two adjacent intervals are returned, in order |
| DoMethods.IllegalFunctorClipped | unit_tests/FunctorDoMethods.cpp:47-55 | all three declarations of IllegalFunctor lie inside the axis and survive clipping unchanged |
| DoMethods.IllegalFunctorRejected | unit_tests/FunctorDoMethods.cpp:47-55 | the overlapping declarations of IllegalFunctor are rejected |
| IcoEsf.MakeEsfDescriptor | include/stencil-composition/icosahedral_grids/esf.hpp:13-23 | well-formed iff every argument is a placeholder and the grid is a grid topology; a failure reports exactly the assertions that fail, both when both do; a success exposes function, grid, location and args as given |
| IcoEsf.MadeDescriptorIsEsfDescriptor | include/stencil-composition/icosahedral_grids/esf.hpp:25-26 | every well-formed descriptor satisfies `is_esf_descriptor` |
| IcoEsf.GetLocationTypeIsConstructionArgument | include/stencil-composition/icosahedral_grids/esf.hpp:31-38 | `esf_get_location_type` returns the location type the descriptor was built with |
| ColorDispatch.Repeat | include/gridtools/stencil-composition/icosahedral_grids/backend_host/run_esf_functor_host.hpp:117-118 | n copies of the call |
| ColorDispatch.MatchingColours | include/gridtools/stencil-composition/icosahedral_grids/backend_host/run_esf_functor_host.hpp:63-68 | an ESF without colour matches every run colour; a coloured one matches exactly its own colour |
| ColorDispatch.PlannedCallsAsWritten | include/gridtools/stencil-composition/icosahedral_grids/backend_host/run_esf_functor_host.hpp:76-131 | the calls the code makes: none on a colour mismatch or a reduction, else `repeat` calls of the functor at the run colour over the interval |
| ColorDispatch.PlannedCalls | include/gridtools/stencil-composition/icosahedral_grids/backend_host/run_esf_functor_host.hpp:76-131 | the intended dispatch: nothing on mismatch, an error for a reduction, else `repeat` calls at the run colour |
| ColorDispatch.AsWrittenMatchesIntendedOffReductions | include/gridtools/stencil-composition/icosahedral_grids/backend_host/run_esf_functor_host.hpp:76-119 | without reductions, the code as written and the intended dispatch agree |
| ColorDispatch.ReductionIgnoredAsWritten | include/gridtools/stencil-composition/icosahedral_grids/backend_host/run_esf_functor_host.hpp:127-131 | a reduction ESF is accepted and makes no call as written, while the intended dispatch rejects it |
| ColorDispatch.IterateDomain.constructor | include/gridtools/stencil-composition/icosahedral_grids/backend_host/run_esf_functor_host.hpp:94-100 | the iterate domain starts with no recorded calls |
| ColorDispatch.IterateDomain.DoImpl | include/gridtools/stencil-composition/icosahedral_grids/backend_host/run_esf_functor_host.hpp:76-85 | records exactly the calls of PlannedCallsAsWritten |
| ColorDispatch.IterateDomain.CallUserFunctor | include/gridtools/stencil-composition/icosahedral_grids/backend_host/run_esf_functor_host.hpp:94-131 | a non-reduction ESF records `repeat` calls at the run colour; a reduction records nothing |
| Topology.Layout | unit_tests/stencil-composition/icosahedral_grids/test_cxx11_icosahedral_topology.cpp:54-75 | one entry per selector position, −1 exactly at masked positions |
| Topology.RankedBelowIsStrictTotal | unit_tests/stencil-composition/icosahedral_grids/test_cxx11_icosahedral_topology.cpp:54-75 | the backend's priority order is a strict total order |
| Topology.CountBelowMonotone | unit_tests/stencil-composition/icosahedral_grids/test_cxx11_icosahedral_topology.cpp:54-75 | a higher-priority active position adds one to the count below |
| Topology.CountBelowBound | unit_tests/stencil-composition/icosahedral_grids/test_cxx11_icosahedral_topology.cpp:54-75 | the count below an active position is less than the number of active positions |
| Topology.LayoutIsPermutationOfRanks | unit_tests/stencil-composition/icosahedral_grids/test_cxx11_icosahedral_topology.cpp:54-75 | active positions get distinct ranks in 0..(active count − 1), so ranks are compacted |
| Topology.LayoutKeepsPriorityOrder | unit_tests/stencil-composition/icosahedral_grids/test_cxx11_icosahedral_topology.cpp:54-75 | priority order is rank order |
| Topology.HostLayouts | unit_tests/stencil-composition/icosahedral_grids/test_cxx11_icosahedral_topology.cpp:55-74 | host layouts ⟨0,1,2,3⟩, ⟨0,1,2,−1⟩ and ⟨2,3,4,5,0,1⟩ |
| Topology.CudaLayouts | unit_tests/stencil-composition/icosahedral_grids/test_cxx11_icosahedral_topology.cpp:55-74 | CUDA layouts ⟨3,2,1,0⟩, ⟨2,1,0,−1⟩ and ⟨5,4,3,2,1,0⟩ |
| Topology.Colors | unit_tests/stencil-composition/icosahedral_grids/test_cxx11_icosahedral_topology.cpp:79-89 | a location type has between one and three colours |
| Topology.StorageDims | unit_tests/stencil-composition/icosahedral_grids/test_cxx11_icosahedral_topology.cpp:77-101 | dims are (ni, colours, nj, nk) followed by the extra dims in order |
| Topology.MakeStorageTest | unit_tests/stencil-composition/icosahedral_grids/test_cxx11_icosahedral_topology.cpp:77-101 | edges on grid (4,6,7) give (4,3,6,7); extra 8 and 9 become dims 4 and 5 |
| OnCells.FunctorAccessors | regression/icosahedral/stencil_on_cells.cpp:21-25 | both accessors are on cells; `in` reads ±1 in i and j at k; `out` only at the centre |
| OnCells.Apply | regression/icosahedral/stencil_on_cells.cpp:28-32 | the accumulator, starting at 0, ends as the sum of `in` over the neighbours |
| OnCells.Ref | regression/icosahedral/stencil_on_cells.cpp:39-44 | the reference loop, starting at 0, computes the same neighbour sum |
| OnCells.SumAppend | regression/icosahedral/stencil_on_cells.cpp:28-32 | the neighbour sum splits over concatenation |
| OnCells.SumPermutation | regression/icosahedral/stencil_on_cells.cpp:30 | the sum does not depend on the neighbour enumeration order |
| OnCells.CheckCell | regression/icosahedral/stencil_on_cells.cpp:28-50 | on the test's input field i+j+k+c, kernel and reference agree at every cell whatever order each enumerates the neighbours in |
| Smoothing.LapIsStencil | docs_src/manuals/getting_started/code/gt_smoothing.hpp:39-45 | `lap` is −4·centre plus the four axis neighbours, as a weighted sum over the offset table |
| Smoothing.Declarations | docs_src/manuals/getting_started/code/gt_smoothing.hpp:32-36 | `in` at 0 and `lap` at 1; every offset read lies inside ⟨−1,1,−1,1⟩ with no k offset; `lap` is written only at the centre |
| Smoothing.LapIsLocal | docs_src/manuals/getting_started/code/gt_smoothing.hpp:33-45 | the result depends only on values inside the declared extent |
| Smoothing.ConstantFieldHasZeroLap | docs_src/manuals/getting_started/code/gt_smoothing.hpp:39-45 | the coefficients sum to 0: a constant field gives 0 |
| Smoothing.AffineFieldHasZeroLap | docs_src/manuals/getting_started/code/gt_smoothing.hpp:39-45 | an affine field gives 0 |
| Smoothing.AxisInterval | docs_src/manuals/getting_started/code/gt_smoothing.hpp:28-30 | each axis interval is valid and spans one splitter |
| Smoothing.AxisIntervals | docs_src/manuals/getting_started/code/gt_smoothing.hpp:28-30 | `axis<n>` has exactly n intervals, the x-th being interval x |
| Smoothing.AxisIntervalsTile | docs_src/manuals/getting_started/code/gt_smoothing.hpp:28-30 | the intervals are valid, adjacent and pairwise disjoint |
| Smoothing.SmoothingAxis | docs_src/manuals/getting_started/code/gt_smoothing.hpp:28-30 | `axis<2>` is the lower and the upper interval |
| BasicLaplacian.NegatedSmoothingLap | examples/basic_laplacian.cpp:34-36 | the example's formula is the negated 5-point `lap` of the smoothing guide |
| BasicLaplacian.UpdateColumn | examples/basic_laplacian.cpp:31-36 | writes `out(i,j,k)` for every k and nothing else |
| BasicLaplacian.UpdateRect | examples/basic_laplacian.cpp:81-105 | writes the Laplacian exactly on the rectangle of the loop nest, all k; the rest of `out` is unchanged |
| BasicLaplacian.Naive | examples/basic_laplacian.cpp:30-39 | `out` holds `4·in − neighbours` exactly on 2 ≤ i < d1−2, 2 ≤ j < d2−2, all k; elsewhere it keeps its old value; `in` is not written |
| BasicLaplacian.UnsignedMinus | examples/basic_laplacian.cpp:16-17 | `d - c` on 32-bit `uint_t`: exact when d ≥ c, 2^32 − (c − d) otherwise |
| BasicLaplacian.NaiveBoundAsWrittenOverruns | examples/basic_laplacian.cpp:30-31 | for d < 2 the written bound `d1-2` wraps above 2, so the loop starts at i = 2, outside the array and the interior |
| BasicLaplacian.TileCountAsWritten | examples/basic_laplacian.cpp:78-79 | `(d-4)/4` in 32-bit unsigned arithmetic: correct for d ≥ 4, 1073741823 for d < 4 |
| BasicLaplacian.TileCount | examples/basic_laplacian.cpp:75-79 | the number of full tiles: they fit in the interior and one more would not |
| BasicLaplacian.TileCountAsWrittenOverruns | examples/basic_laplacian.cpp:78-79 | the as-written count agrees for d ≥ 4 and overruns the single interior-less tile for d ∈ {2, 3} |
| BasicLaplacian.FullTiles | examples/basic_laplacian.cpp:81-105 | writes exactly the full tiles |
| BasicLaplacian.RemainderI | examples/basic_laplacian.cpp:107-129 | writes exactly the i remainder beside the full j tiles |
| BasicLaplacian.RemainderJ | examples/basic_laplacian.cpp:131-153 | writes exactly the j remainder beside the full i tiles |
| BasicLaplacian.Block | examples/basic_laplacian.cpp:75-175 | the tiled traversal writes exactly what the naive one does |
| BasicLaplacian.BlocksPartitionInterior | examples/basic_laplacian.cpp:81-175 | each interior (i, j) lies in exactly one of the four block kinds and in exactly one tile of it |
| BasicLaplacian.TileBounds | examples/basic_laplacian.cpp:81-105 | each i ≥ 2 lies in exactly one tile |
| BasicLaplacian.MakeStorage | examples/basic_laplacian.cpp:25-26 | a fresh storage of the given sizes filled with the initial value |
| BasicLaplacian.NaiveAndBlockAgree | examples/basic_laplacian.cpp:25-175 | the naive and the tiled run leave the same `out` |
| ExpandableKernel.KernelDeclarations | regression/expandable_parameters_single_kernel.cpp:20-42 | ten zero-extent accessors, 0–4 `inout` and 5–9 `in` |
| ExpandableKernel.Apply | regression/expandable_parameters_single_kernel.cpp:45-51 | each `out_n` gets `in_n`; no other placeholder changes |
| ExpandableKernel.Evaluation.constructor | regression/expandable_parameters_single_kernel.cpp:45-51 | the evaluation starts from the given point values |
| ExpandableKernel.Evaluation.ApplyKernel | regression/expandable_parameters_single_kernel.cpp:45-51 | the five in-place assignments leave the store that Apply describes |
| ExpandableKernel.RunStages | regression/expandable_parameters_single_kernel.cpp:62-81 | running stages keeps the set of bound placeholders |
| ExpandableKernel.RunTwoStages | regression/expandable_parameters_single_kernel.cpp:64-68 | two stages run one after the other |
| ExpandableKernel.Temporaries | regression/expandable_parameters_single_kernel.cpp:62-68 | the five temporaries `tmp_0..4` |
| ExpandableKernel.CopyArgs | regression/expandable_parameters_single_kernel.cpp:66 | the first stage writes `tmp_n` and reads `in_n` |
| ExpandableKernel.WriteBackArgs | regression/expandable_parameters_single_kernel.cpp:67 | the second stage writes `out_n` and reads `tmp_n` |
| ExpandableKernel.CopySpec | regression/expandable_parameters_single_kernel.cpp:64-68 | one parallel pass, IJ-caching the temporaries, with two stages of the kernel |
| ExpandableKernel.CopySpecShape | regression/expandable_parameters_single_kernel.cpp:64-68 | the composition applied to `arg<0..9>` is the copy pass |
| ExpandableKernel.InitialStore | regression/expandable_parameters_single_kernel.cpp:57-60 | bound fields keep their values and the temporaries exist |
| ExpandableKernel.CopyStageEffect | regression/expandable_parameters_single_kernel.cpp:66 | stage 1 sets `tmp_n = in_n` and changes nothing else |
| ExpandableKernel.WriteBackStageEffect | regression/expandable_parameters_single_kernel.cpp:67 | stage 2 sets `out_n = tmp_n` and changes nothing else |
| ExpandableKernel.CopyPassEffect | regression/expandable_parameters_single_kernel.cpp:64-68 | after the pass, `out_n == in_n` and the inputs are unchanged |
| ExpandableKernel.RunCopySpec | regression/expandable_parameters_single_kernel.cpp:62-81 | running binds the ten fields in order to the copy pass |
| ExpandableKernel.InitialStoreBinds | regression/expandable_parameters_single_kernel.cpp:57-60 | the initial store binds all ten fields and the temporaries |
| ExpandableKernel.CopyPassOnFields | regression/expandable_parameters_single_kernel.cpp:64-84 | on the bound fields, every output equals its input afterwards |
| ExpandableKernel.CopyThroughTemporaries | regression/expandable_parameters_single_kernel.cpp:62-84 | whatever the fields, `out[i] == in[i]` after the run |
| ExpandableKernel.RegressionFields | regression/expandable_parameters_single_kernel.cpp:57-60 | the initial `out` values 1..5 do not survive |
| ExpandableKernel.InputsNotWritten | regression/expandable_parameters_single_kernel.cpp:64-68 | no stage writes `in_0..4` |
| ExpandableKernel.CopyPassIntents | regression/expandable_parameters_single_kernel.cpp:64-68 | outputs and temporaries are `inout`, inputs `in` |
| ExpandableKernel.CopyIntents | regression/expandable_parameters_single_kernel.cpp:64-68 | the same intents for the spec the composition builds |
| Boundary.Select | examples/boundary-condition.cpp:50-82 | the chosen overload matches the direction and is strictly more specialised than every other matching overload |
| Boundary.SelectIsUnique | examples/boundary-condition.cpp:50-82 | exactly one overload has that property |
| Boundary.BcValueScalesWithValue | examples/boundary-condition.cpp:41-82 | every overload scales its result by the stored value: an instance holding v stores v times what the default instance (value 1) stores |
| Boundary.SourceReadOnlyByGeneric | examples/boundary-condition.cpp:52-82 | only the generic overload reads the source field |
| Boundary.ApplyAt | examples/boundary-condition.cpp:50-82 | writes the overload's value at (i,j,k) and nothing else; the source is only read |
| Boundary.SignOf | python/gridtools/templates/stencil.cpp:132-136 | minus before `begin`, plus after `end`, zero in between, each an iff |
| Boundary.HaloForCoversAxis | examples/boundary-condition.cpp:124-127 | the example's descriptor (1, 1, 1, d−2, d) puts one halo cell on each side: the parts make up the axis, minus exactly at 0, plus exactly at d−1 |
| Boundary.CornerOverloads | examples/boundary-condition.cpp:50-82 | the four overloads are each selected at some corner of the box |
| Boundary.InitFields | examples/boundary-condition.cpp:105-112 | `in` is 0 and `out` is i+j+k everywhere |
| Boundary.ExampleValues | examples/boundary-condition.cpp:41-82 | the default instance (value 1) stores the source value, 88, 77777 or 55555 by overload, and the stateful instance with value 2 (as the example builds it at line 143) doubles each |
| Verifier.RelativeErrorBound | examples/verifier.h:44-55 | outside the small-value case the check is `|e−a| < precision·|e|` |
| Verifier.CompareReflexive | examples/verifier.h:44-55 | with precision > 0 every value passes against itself |
| Verifier.ZeroPrecisionRejects | examples/verifier.h:44-55 | precision 0 rejects every pair |
| Verifier.HaloIsIgnored | examples/verifier.h:21-25 | values in the i/j halo never affect the result |
| Verifier.SelfAgrees | examples/verifier.h:44-55 | a field agrees with itself |
| Verifier.Verifier.constructor | examples/verifier.h:6 | stores precision and halo size |
| Verifier.Verifier.Verify | examples/verifier.h:9-41 | true iff every point with halo ≤ i < idim−halo, halo ≤ j < jdim−halo and any k passes the comparison; neither field is modified |
| Verifier.VerifySelf | examples/verifier.h:9-55 | `verify(f, f)` is true for precision > 0 |
| FortranAdapter.MadeDescriptorDescribes | unit_tests/interface/test_fortran_array_adapter.cpp:27-34 | the rank-3 descriptor with dims (x, y, z) fits exactly a Fortran array [z][y][x] and a store (x, y, z); kind as given, no accelerator copy |
| FortranAdapter.LinearIndexIsBijective | unit_tests/interface/test_fortran_array_adapter.cpp:40-44 | the running counter `x + xSize·(y + ySize·z)` is below the element count and gives back x, y and z |
| FortranAdapter.FillFortran | unit_tests/interface/test_fortran_array_adapter.cpp:40-44 | `fortran[z][y][x]` is the counter, x fastest |
| FortranAdapter.FillView | unit_tests/interface/test_fortran_array_adapter.cpp:76-80 | `view(x,y,z)` is the counter |
| FortranAdapter.TransformTo | unit_tests/interface/test_fortran_array_adapter.cpp:47-54 | `view(x,y,z) == fortran[z][y][x]` everywhere |
| FortranAdapter.TransformFrom | unit_tests/interface/test_fortran_array_adapter.cpp:83-89 | `fortran[z][y][x] == view(x,y,z)` everywhere |
| FortranAdapter.RoundTrip | unit_tests/interface/test_fortran_array_adapter.cpp:21-90 | transforming to a view and back restores every element |
| FortranAdapter.TransformAdapterIntoDataStore | unit_tests/interface/test_fortran_array_adapter.cpp:21-55 | the first test's element-wise check passes |
| FortranAdapter.TransformDataStoreIntoAdapter | unit_tests/interface/test_fortran_array_adapter.cpp:57-90 | the second test's element-wise check passes |
| Specializations.Unwrap | include/stencil-composition/expandable_parameters/specializations.hpp:3-30 | strips every `vector<pointer<…>>` layer and nothing else |
| Specializations.Arg2Storage | include/stencil-composition/expandable_parameters/specializations.hpp:3-6 | `arg<ID, vector<pointer<T>>>` gives T, anything else the primary template |
| Specializations.Arg2StorageOfVector | include/stencil-composition/expandable_parameters/specializations.hpp:3-6 | `arg2storage<arg<ID, vector<pointer<T>>>>` is T |
| Specializations.ValueType | include/stencil-composition/expandable_parameters/specializations.hpp:9-12 | defined exactly for pointers, giving the pointee |
| Specializations.GetLocationTypeOfVector | include/stencil-composition/expandable_parameters/specializations.hpp:9-12 | a vector of pointers to a storage has the storage info's index type; any other vector has none, so the instantiation does not compile; other types go to the primary template |
| Specializations.InsertIfNotPresent | include/stencil-composition/expandable_parameters/specializations.hpp:14-18 | a vector of pointers is inserted as its element |
| Specializations.InsertUnwrapsVectors | include/stencil-composition/expandable_parameters/specializations.hpp:14-18 | inserting a nested vector of pointers behaves exactly as inserting its innermost element |
| Specializations.StorageHoldsDataFieldOfVector | include/stencil-composition/expandable_parameters/specializations.hpp:23-24 | true for every vector of pointers whatever the primary template says; other types go to the primary template |
| Specializations.IsTemporary | include/stencil-composition/expandable_parameters/specializations.hpp:26-27 | a storage's temporary flag |
| Specializations.IsActualStorage | include/stencil-composition/expandable_parameters/specializations.hpp:26-27 | `pointer<vector<pointer<T>>>` is actual iff T is not temporary, else the primary template |
| Specializations.ActualStorageIffNotTemporary | include/stencil-composition/expandable_parameters/specializations.hpp:26-27 | for a storage T the answer is defined and is true iff T is not temporary |
| Specializations.IsStorage | include/stencil-composition/expandable_parameters/specializations.hpp:29-30 | `is_storage` of a vector of pointers is `is_storage` of its element |
| Specializations.IsStorageOfInnermost | include/stencil-composition/expandable_parameters/specializations.hpp:29-30 | `is_storage` of nested vectors is the primary answer on the innermost type |
| JoinPrefix.JoinWithPrefix | python/gridtools/__init__.py:4-11 | same length; without attribute `prefix + str(a[i])`, with it `prefix + str(getattr(a[i], attribute))` |
| JoinPrefix.PrefixThenElement | python/gridtools/__init__.py:8-9 | each result starts with the prefix, followed by the element's string |
| JoinPrefix.JoinDistributes | python/gridtools/__init__.py:8-11 | joining a concatenation is the concatenation of the joins: order is preserved |
| JoinPrefix.EmptyList | python/gridtools/__init__.py:9-11 | an empty list gives an empty list |
| JoinPrefix.EmptyPrefix | python/gridtools/__init__.py:8-9 | an empty prefix gives just the string forms |

## Left out

- I/O is not modelled. This covers timers, printing, file streams and the `argc`/`atoi` handling of the example `main`s.
- The CUDA hybrid pointers are not part of this model. They are thin wrappers over the CUDA runtime.
- The alignment regression is not part of this model. It tests machine addresses via `reinterpret_cast`.
- The HPX thread-pool plumbing is not part of this model. It is concurrency set-up.
- The code-generation template `stencil.cpp` is only used for its documented halo-descriptor fields.
- The Jinja `Environment` setup in `python/gridtools/__init__.py` is left out.
- Python exceptions from `getattr`/`str` are left out: `str` and `getattr` are parameters.
- Floating point is approximated:
  - Field values are unbounded integers.
  - The verifier's comparison is over exact reals, and the threshold 1e-3 is exactly 1/1000.
  - An IEEE division by zero in the comparison (precision 0 or e = 0) counts as failing.
  - The boundary example's initial values and the Laplacian example's −7.3 are parameters.
- `boundary_apply` is not part of this model. Its traversal is replaced by `ApplyAt` at one point, plus `DirectionAt`, which reads a point's direction from the three halo descriptors.
- `neighbours_of` is not part of this model. The neighbour list of a cell is a parameter.
- The colour counts per location type come from the icosahedral topology, which is not part of this model. Only edges = 3 is fixed by the test. The model uses cells = 2, edges = 3, vertices = 1.
- `compute_functor_do_methods` is not part of this model. It is modelled as three steps: clip to the axis, sort by start, reject overlapping neighbours.
  - The test's Functor0 yields a single one-level interval, so gaps are allowed. The model follows the test rather than asking the intervals to cover the axis.
- The level index formula is not part of this model. It is taken as 6·splitter + offset + 3 for negative offsets and + 2 for positive ones, where the offset limit is 3. This agrees with the axis [(0,−3),(3,3)] and the enumeration 0..19.
- `compute_readwrite_args` is not part of this model. An ESF's read-write arguments are the placeholders bound to `inout` accessors of its functor.
- The primary templates of the expandable-parameter traits are not part of this model. They are function parameters.
- Topology.RankedBelow: `icosahedral_topology::layout_t` is not part of this model. The priority order is generalised from the three host and three CUDA layouts the test asserts, and the source does not fix other selectors.
- The fixture's `make_grid`/`make_storage` and the adapter's internals are not part of this model. Only the index mappings the tests check are modelled.
- The Fortran descriptor's element type is reduced to float or double.
- Verifier.Verifier.Verify: a negative halo size is excluded by a requires. The source would then compare points outside the array.
- ExpandableKernel.Apply: the kernel is modelled at one grid point. All its accessors have zero extent, so the traversal adds nothing.

## Findings

| source | as written | input that shows it | evidently intended | confidence | as-written member | corrected member |
|---|---|---|---|---|---|---|
| include/gridtools/stencil-composition/icosahedral_grids/backend_host/run_esf_functor_host.hpp:127-131 | the reduction overload's static assertion tests a condition that always holds, so a reduction ESF compiles and its do-method is silently never called | an ESF with `is_reduction` true, with any colour | reductions are a definition error on icosahedral grids | medium, not executed | ColorDispatch.PlannedCallsAsWritten, ColorDispatch.ReductionIgnoredAsWritten | ColorDispatch.PlannedCalls |
| examples/basic_laplacian.cpp:30-31, 78-79 | `d1` is `uint_t`, so `d1-2` in the loop bounds and `d1-4` in `NBI = (d1-4)/BI` are unsigned and wrap for small d1 | d1 = 2 or 3: `d1-4` wraps to 2^32−2 or 2^32−1, NBI = 1073741823 and the tile loop writes far outside `out`; d1 = 0 or 1: `d1-2` wraps and both traversals start at i = 2, outside the array (assuming a 32-bit `uint_t`) | zero full tiles, and no iteration at all, when the interior is empty or smaller than a tile | medium, not executed | BasicLaplacian.UnsignedMinus, BasicLaplacian.NaiveBoundAsWrittenOverruns, BasicLaplacian.TileCountAsWritten, BasicLaplacian.TileCountAsWrittenOverruns | BasicLaplacian.Naive, BasicLaplacian.TileCount, BasicLaplacian.Block |
