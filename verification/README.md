# Dense linear-algebra kernels in exact arithmetic

A model of the dense kernels of Kokkos Kernels and proofs that they compute what the BLAS routines
they stand for promise. Scalars are pairs of reals with conjugation (`Scalars`), reals for the real
Givens kernels. Arithmetic is exact: rounding, overflow and NaN are outside the model.

Parallelism is modelled twice. In the methods a `parallel_for` is a loop that picks its remaining work
items arbitrarily; teams, threads between barriers and atomic adds are treated the same way, so every
postcondition holds for every order. A work item is one atomic step there. That is the whole story
where concurrent items write cells of their own that no other item touches, or add atomically. Three
kernels in which a barrier or the dealing of indices to threads keeps plain loads and stores apart are
modelled again as a machine of single accesses (`BarrierMachine`): the tiled GEMM (`GemmSchedules`,
`GemmScheduleResult`), team GEMV (`TeamGemvSchedules`, `TeamGemvScheduleResult`) and the team kernels of
SYR2 (`Syr2Schedules`). There race freedom, independence of the schedule, the absence of deadlock and
the result of every complete schedule are theorems. A `parallel_reduce` follows an arbitrary tree of
leaves and joins (`Sums`).

Modules, by component:

- `Tiling`, `TiledGemm`, `BarrierMachine`, `GemmSchedules`, `GemmScheduleResult`, `ScheduleCompletion`: the
  tiled GEMM.
- `SlicedReduction`, `DotBasedGemm`, `DotMultiVector`: dot products split over teams with atomic adds.
- `GemmDispatch`: the choice of the GEMM kernel.
- `GemvSpec`, `SingleLevelGemv`, `TwoLevelGemv`, `Gemv`: GEMV on host and device.
- `StridedMemory`, `SerialGemv`, `TeamGemv`, `TeamGemvSchedules`, `TeamGemvScheduleResult`: GEMV over flat
  memory with base addresses and strides; A, x and y live in one array, y overlapping neither of the others.
- `RealAlgebra`, `Rotmg`, `Rotm`, `RotmgConservation`, `RotmgExactness`, `RotmgConditions`: the modified
  Givens rotation.
- `ComplexAlgebra`, `Rotg`, `ComplexRotg`, `Rot`: the Givens rotation.
- `Syr2`, `Syr2Schedules`: the symmetric and Hermitian rank-2 update.
- `Axpby`, `Iamax`, `OptionParser`, and the small `TransposeLetters` and `Options`.

Every front end states its result on the data its caller passes, with letters, extents, places in `param`
and option names as literals. Where a specification function is shared by several kernels, a lemma named
`...WrittenOut` says in the same terms what it is.

Square roots and moduli are parameters of which only the defining law is used; conversion of text to
integers is a parameter of which nothing is assumed; the recommended team size, the reduction trees
and the order of work items are arbitrary. The schedules are stated over all of these.

What the code does where it or its documentation might suggest otherwise:

- rotmg with d1 < 0 zeroes d1, d2 and x1 but writes nothing to param
  (blas/impl/KokkosBlas1_rotmg_impl.hpp:43-48), so a following rotm uses or rejects what was in it.
- A rescale pass entered with flag -1 overwrites h21 and h12 that earlier passes had scaled
  (blas/impl/KokkosBlas1_rotmg_impl.hpp:113-117 and 140-144). `ConservationExact` and `ToAxisExact` say
  exactly for which inputs the promises of the routine survive, in terms of the sizes of d1 / u and
  d2 / u; `TwoPassesLoseTheRotation` is an input for which they do not.
- rot does not conjugate s (blas/impl/KokkosBlas1_rot_impl.hpp:37-41). With a complex rotg it turns the
  pair into (r, 0) exactly when b conj(a) is real; `ComplexRotationMisses` is a pair for which it does not.
- The multivector dot divides by zero when there are no columns
  (blas/impl/KokkosBlas_util.hpp:152-161), and the two-level LayoutLeft GEMV when fewer than 32 threads
  are recommended (blas/impl/KokkosBlas2_gemv_impl.hpp:580-593). GEMM inherits the latter for a single
  column of B (blas/src/KokkosBlas3_gemm.hpp:165).
- The team kernels of SYR2 have no barrier between their two loops over the same cells
  (blas/impl/KokkosBlas2_syr2_impl.hpp:154-186). They are right because both loops deal an index to the
  same thread; `LostUpdate` shows what happens otherwise.
- The documentation of iamax promises the smallest index (blas/src/KokkosBlas1_iamax.hpp:24-36). That
  holds for every vector exactly for reductions that visit the indices in order, and for every reduction
  exactly for vectors whose first entry is a maximum or whose maximum occurs once.
- The comments of axpby say that a zero in a coefficient view is not treated as a literal zero
  (blas/impl/KokkosBlas1_axpby_mv_impl.hpp:40-42); the code tests a view of extent one for zero
  (blas/impl/KokkosBlas1_axpby_mv_impl.hpp:123-124). In exact arithmetic this makes no difference.
- `InnerMultipleDotProduct<5>` uses `op` without declaring it
  (blas/impl/KokkosBlas2_serial_gemv_inner_multiple_dot.hpp:68-87); it is modelled like the other sizes.

## Model

| member | source | states |
|---|---|---|
| Sums.ReduceIsSum | blas/impl/KokkosBlas3_gemm_dotbased_impl.hpp:114-116 | a parallel reduction gives the sum over its range for every tree whose leaves hold exactly the indices of the range, in whatever order and grouping |
| Sums.SomeTreeCovers | blas/impl/KokkosBlas3_gemm_dotbased_impl.hpp:114-116 | every range has such a tree, so statements about all reduction trees are not empty |
| Matrices.PaddingAddsNothing | blas/impl/KokkosBlas3_gemm_impl.hpp:84-95 | zeros beyond the inner extent leave entry (i, j) of op(A) op(B) unchanged |
| Matrices.GemmWrittenOut | blas/src/KokkosBlas3_gemm.hpp:79-96 | entry (i, j) of GEMM on the data: beta c plus alpha times the sum over k of A(i, k), A(k, i) or conj A(k, i) times B(k, j), B(j, k) or conj B(j, k) |
| Tiling.TilesPartitionC | blas/impl/KokkosBlas3_gemm_impl.hpp:486-526 | each entry of C lies in the tile of exactly one league rank, and that rank is in the league |
| Tiling.ClippedRange | blas/impl/KokkosBlas3_gemm_impl.hpp:312-313 | at the ragged edge `extent % blockDim` is the extent minus the offset of the tile |
| Tiling.ColumnSplitCovers | blas/impl/KokkosBlas3_gemm_impl.hpp:394-413 | the four-way column split reaches every column of a block if and only if the block width is divisible by four |
| TiledGemm.DeepCopyBlock | blas/impl/KokkosBlas3_gemm_impl.hpp:62-98 | whatever the order of the copies, the scratch block holds op(A) at the offset, extended by zeros |
| TiledGemm.FourDots | blas/impl/KokkosBlas3_gemm_impl.hpp:399-409 | the four accumulators are the inner products of one scratch row with the same position in each quarter of the columns |
| TiledGemm.AccumulateItem | blas/impl/KokkosBlas3_gemm_impl.hpp:392-419 | one work item adds four inner products to four cells of its row and changes no other cell |
| TiledGemm.TeamGemmBlock | blas/impl/KokkosBlas3_gemm_impl.hpp:378-420 | whatever the order of the items, each cell of C_scr grows by exactly one full inner product of the staged blocks |
| TiledGemm.UpdateBlock | blas/impl/KokkosBlas3_gemm_impl.hpp:288-330 | write-back updates exactly the part of the tile inside C, to beta * C + alpha * scratch, and no entry twice |
| TiledGemm.ComputeTile | blas/impl/KokkosBlas3_gemm_impl.hpp:531-561 | after the loop over the inner dimension C_scr holds the complete padded product for every inner extent, zero included |
| TiledGemm.TeamKernel | blas/impl/KokkosBlas3_gemm_impl.hpp:521-566 | a team leaves the specified value in its tile of C and every other entry alone |
| TiledGemm.Run | blas/impl/KokkosBlas3_gemm_impl.hpp:497-518 | for all sizes, all nine transpose pairs and all block sizes with blockB1 divisible by four, and for any order of the teams, C ends as beta * C + alpha * op(A) op(B) |
| BarrierMachine.StepKeepsInv | blas/impl/KokkosBlas3_gemm_impl.hpp:528-565 | in a race-free kernel every single load, store or barrier keeps the invariant that each thread is where it would be had it run alone since the last barrier |
| BarrierMachine.ReachableInv | blas/impl/KokkosBlas3_gemm_impl.hpp:528-565 | that invariant holds in every state any interleaving can reach |
| BarrierMachine.NoDeadlock | blas/impl/KokkosBlas3_gemm_impl.hpp:528-565 | until every team is through its phases some thread or barrier can take a step |
| BarrierMachine.BarrierSeesPhaseResult | blas/impl/KokkosBlas3_gemm_impl.hpp:553-560 | when a team passes a barrier memory is what its items produce one by one from the start of the phase |
| BarrierMachine.SchedulesAgree | blas/impl/KokkosBlas3_gemm_impl.hpp:528-565 | two complete schedules of a race-free kernel end in the same memory |
| ScheduleCompletion.RunsComplete | blas/impl/KokkosBlas3_gemm_impl.hpp:528-565 | every partial run of a race-free kernel with finitely many items extends to a complete one |
| ScheduleCompletion.GemmRunsComplete | blas/impl/KokkosBlas3_gemm_impl.hpp:521-566 | every partial schedule of the tiled GEMM extends to a complete one |
| GemmSchedules.ItemsApart | blas/impl/KokkosBlas3_gemm_impl.hpp:528-565 | between two barriers what one thread of a team writes no other thread of the team reads or writes |
| GemmSchedules.TeamsApart | blas/impl/KokkosBlas3_gemm_impl.hpp:521-566 | what a team ever writes no other team reads or writes |
| GemmSchedules.GemmIsRaceFree | blas/impl/KokkosBlas3_gemm_impl.hpp:528-565 | the tiled GEMM, as loads and stores of its threads, is race free in scratch and in C |
| GemmSchedules.AccessesInBounds | blas/impl/KokkosBlas3_gemm_impl.hpp:62-98 | every access to A, B and C is inside the extents |
| GemmSchedules.WriteRange | blas/impl/KokkosBlas3_gemm_impl.hpp:311-314 | the write-back range is exactly the part of the tile inside C |
| GemmScheduleResult.DotEffect | blas/impl/KokkosBlas3_gemm_impl.hpp:399-413 | a dot item run alone adds the inner products of the staged blocks to its four cells |
| GemmScheduleResult.PhaseKeepsFacts | blas/impl/KokkosBlas3_gemm_impl.hpp:531-565 | each phase carries the facts about scratch and C that the next one needs, whatever the interleaving in it |
| GemmScheduleResult.EveryScheduleComputesGemm | blas/impl/KokkosBlas3_gemm_impl.hpp:521-566 | every schedule that respects the barriers, down to single loads and stores, ends with beta * C + alpha * op(A) op(B) in every entry |
| SlicedReduction.WorkDistributionBounds | blas/impl/KokkosBlas_util.hpp:141-162 | the work distribution divides by zero if and only if there are no reductions; else there is at least one team per reduction, and either exactly one or at most 1024 teams in all |
| SlicedReduction.WorkDistributionExact | blas/impl/KokkosBlas_util.hpp:141-162 | there are as many teams per dot product as keep the league within 1024 and give each team 4096 products, and at least one |
| SlicedReduction.SlicesPartition | blas/impl/KokkosBlas3_gemm_dotbased_impl.hpp:111-113 | the slices, the last one taking the remainder, add up to the whole dot product, also with more teams than terms |
| SlicedReduction.SliceReduction | blas/impl/KokkosBlas3_gemm_dotbased_impl.hpp:110-116 | any reduction tree over the slice of a team reads only rows of the vectors and yields the value of the slice |
| SlicedReduction.PendingStep | blas/impl/KokkosBlas3_gemm_dotbased_impl.hpp:104-118 | a contribution of one team lowers the pending part of its own dot product by its slice and that of no other |
| DotBasedGemm.InitC | blas/impl/KokkosBlas3_gemm_dotbased_impl.hpp:75-82 | for every beta, C becomes beta * C before the teams start |
| DotBasedGemm.DotIsScaledProduct | blas/impl/KokkosBlas3_gemm_dotbased_impl.hpp:114-116 | multiplying each term by alpha gives alpha times the entry of op(A) B |
| DotBasedGemm.TeamPartial | blas/impl/KokkosBlas3_gemm_dotbased_impl.hpp:103-116 | the rank arithmetic finds the entry of C and the slice a team works on |
| DotBasedGemm.ConservedByAdd | blas/impl/KokkosBlas3_gemm_dotbased_impl.hpp:118 | C(i, j) plus the pending slices of its dot product is unchanged by an atomic add of any team |
| DotBasedGemm.TeamKernel | blas/impl/KokkosBlas3_gemm_dotbased_impl.hpp:103-138 | a team adds its slice to one entry of C and changes no other |
| DotBasedGemm.Run | blas/impl/KokkosBlas3_gemm_dotbased_impl.hpp:70-92 | for every order of the teams, every reduction tree and every number of teams per dot product C ends as beta * C + alpha * op(A) B |
| GemmDispatch.InnerBlock | blas/impl/KokkosBlas3_gemm_spec.hpp:129-139 | the inner block is the largest of 4, 8 and 16 for which the three blocks take less than 24000 bytes, or else 16 |
| GemmDispatch.OpOf | blas/impl/KokkosBlas3_gemm_spec.hpp:157-210 | N and n, T and t, C and c name the plain, the transposed and the conjugated read |
| GemmDispatch.ValidLetter | blas/src/KokkosBlas3_gemm.hpp:118-131 | no other letter is valid |
| GemmDispatch.DotBasedWrittenOut | blas/impl/KokkosBlas3_gemm_spec.hpp:103-118 | when the dot-based kernel is chosen, with letters and thresholds as numbers |
| GemmDispatch.Dispatch | blas/impl/KokkosBlas3_gemm_spec.hpp:103-214 | for valid letters exactly one kernel runs and leaves the specified C whatever the thresholds choose; for other letters no tiled kernel runs and C is unchanged unless the dot-based one was chosen |
| GemmDispatch.GemvShortcut | blas/src/KokkosBlas3_gemm.hpp:48-60 | for a single column of B the entries the matrix-vector product specifies are those gemm specifies |
| GemmDispatch.Shortcut | blas/src/KokkosBlas3_gemm.hpp:42-62 | the shortcut for one column of B updates the column of C through gemv, or fails as gemv does and leaves C alone |
| GemmDispatch.Gemm | blas/src/KokkosBlas3_gemm.hpp:153-180 | for each pair of letters C becomes beta C + alpha op(A) op(B) with the op the letter names, empty sizes included; gemm fails if and only if N, N and one unstrided column of B meet a device, a LayoutLeft A that is not empty and fewer than 32 recommended threads, C then being untouched |
| GemmDispatch.CheckedGemm | blas/src/KokkosBlas3_gemm.hpp:118-180 | which letters and extents a debug build rejects, with C untouched, and the same result otherwise |
| DotMultiVector.TeamReduce | blas/impl/KokkosBlas1_dot_mv_impl.hpp:58-63 | a reduction along any tree gives the conjugated products of the column pair, a single column standing for all |
| DotMultiVector.TeamKernel | blas/impl/KokkosBlas1_dot_mv_impl.hpp:47-66 | a team adds its slice to one result and changes no other |
| DotMultiVector.ConservedByAdd | blas/impl/KokkosBlas1_dot_mv_impl.hpp:65 | r(i) plus the pending slices is unchanged by an atomic add of any team |
| DotMultiVector.Teams | blas/impl/KokkosBlas1_dot_mv_impl.hpp:97-102 | for every order of the teams r(i) ends as the full dot product of column pair i |
| DotMultiVector.DotWrittenOut | blas/impl/KokkosBlas1_dot_mv_impl.hpp:46-63 | the dot product on the data: the sum over k of conj x(k, i) times y(k, i), with column 0 for a single column |
| DotMultiVector.DotOfUnit | blas/impl/KokkosBlas1_dot_mv_impl.hpp:58-63 | where the column of x has one entry that is not zero the result is its conjugate times the entry of y |
| DotMultiVector.DotLinear | blas/impl/KokkosBlas1_dot_mv_impl.hpp:58-63 | it is linear in y |
| DotMultiVector.DotConjLinear | blas/impl/KokkosBlas1_dot_mv_impl.hpp:58-63 | it is conjugate-linear in x |
| DotMultiVector.DotConjugates | blas/impl/KokkosBlas1_dot_mv_impl.hpp:58-63 | exchanging x and y conjugates it |
| DotMultiVector.DotPositive | blas/impl/KokkosBlas1_dot_mv_impl.hpp:58-63 | of a vector with itself it is real and not negative |
| DotMultiVector.Invoke | blas/impl/KokkosBlas1_dot_mv_impl.hpp:76-102 | which shapes are rejected, that a rejection leaves r alone, that no column pairs at all divide by zero, and that otherwise every r(i) is the dot product |
| GemvSpec.OnlyBeta | blas/impl/KokkosBlas2_gemv_impl.hpp:200-217 | where alpha is zero or the inner extent is, y = beta * y is the whole update |
| GemvSpec.GemvWrittenOut | blas/impl/KokkosBlas2_gemv_impl.hpp:60-130 | entry i of GEMV on the data: beta y(i) plus alpha times the sum over k of A(i, k), A(k, i) or conj A(k, i) times x(k) |
| GemvSpec.OpOf | blas/src/KokkosBlas2_gemv.hpp:72-94 | N, T and C, or H for the latter, in either case, name the three reads |
| GemvSpec.ValidLetter | blas/src/KokkosBlas2_gemv.hpp:72-94 | no other letter is valid |
| SingleLevelGemv.NontransposeRow | blas/impl/KokkosBlas2_gemv_impl.hpp:58-84 | a row kernel with preset coefficients computes its entry; preset zero for alpha does not read A or x |
| SingleLevelGemv.Nontranspose | blas/impl/KokkosBlas2_gemv_impl.hpp:219-259 | the rows in any order update exactly the rows of the range |
| SingleLevelGemv.AccumulateRow | blas/impl/KokkosBlas2_gemv_impl.hpp:158-167 | operator() adds the products of row i to every entry of an accumulator |
| SingleLevelGemv.JoinInto | blas/impl/KokkosBlas2_gemv_impl.hpp:142-146 | join adds one accumulator to another entry by entry |
| SingleLevelGemv.ReduceTree | blas/impl/KokkosBlas2_gemv_impl.hpp:135-167 | init, operator() and join along any tree compute the reduction of every entry |
| SingleLevelGemv.Final | blas/impl/KokkosBlas2_gemv_impl.hpp:148-156 | final forms beta * y + alpha * result for preset and general beta |
| SingleLevelGemv.Transpose | blas/impl/KokkosBlas2_gemv_impl.hpp:260-342 | the transposed and conjugate-transposed kernels meet the specification for every tree over the rows |
| SingleLevelGemv.Run | blas/impl/KokkosBlas2_gemv_impl.hpp:180-343 | singleLevelGemv meets the specification for every letter, alpha, beta and size |
| TwoLevelGemv.TeamSizeShape | blas/impl/KokkosBlas2_gemv_impl.hpp:577-593 | the team size is the largest multiple of 32 within the recommended size, 32 per column and, on SYCL, 256 |
| TwoLevelGemv.OneThreadPerEntry | blas/impl/KokkosBlas2_gemv_impl.hpp:577-594 | for every recommended team size of at least 32 each entry of A is visited by exactly one thread of one team |
| TwoLevelGemv.PartsCover | blas/impl/KokkosBlas2_gemv_impl.hpp:389-400 | the column blocks of a lane add up to the whole row |
| TwoLevelGemv.LaneByAdd | blas/impl/KokkosBlas2_gemv_impl.hpp:402 | a shared cell plus the parts pending in its lane is unchanged by an atomic add of any thread |
| TwoLevelGemv.ThreadSum | blas/impl/KokkosBlas2_gemv_impl.hpp:393-400 | the private sum of a thread is the sum over its columns, clipped at the extent |
| TwoLevelGemv.AddParts | blas/impl/KokkosBlas2_gemv_impl.hpp:388-404 | between the barriers every interleaving of the atomic adds leaves (A x)(row) in each shared cell that has a row |
| TwoLevelGemv.LayoutLeftTeam | blas/impl/KokkosBlas2_gemv_impl.hpp:382-414 | a team updates exactly its 32 rows of y |
| TwoLevelGemv.LayoutLeft | blas/impl/KokkosBlas2_gemv_impl.hpp:571-599 | the launch divides by zero if and only if fewer than 32 threads are recommended; else y = beta * y + alpha * A x |
| TwoLevelGemv.EntryTeams | blas/impl/KokkosBlas2_gemv_impl.hpp:416-436 | one team per row: y meets the specification for any order of teams and any reduction tree |
| TwoLevelGemv.TeamReduce | blas/impl/KokkosBlas2_gemv_impl.hpp:479-496 | the reduction over a column, conjugated or not, along any tree |
| TwoLevelGemv.Run | blas/impl/KokkosBlas2_gemv_impl.hpp:518-620 | twoLevelGemv meets the specification for every letter, alpha, beta and size, or fails to launch exactly where its launch arithmetic divides by zero |
| Gemv.Invoke | blas/src/KokkosBlas2_gemv.hpp:72-94 | which letters and extents are rejected, when the launch divides by zero, and that y is updated with the op each letter names on host and device alike |
| StridedMemory.RowFrame | blas/impl/KokkosBlas2_serial_gemv_internal.hpp:70-82 | no change to y reaches a row sum of A and x |
| StridedMemory.AddChunk | blas/impl/KokkosBlas2_serial_gemv_internal.hpp:110-111 | a kernel called with shifted pointers adds exactly the rows of its chunk |
| StridedMemory.ScaledThenAdded | blas/impl/KokkosBlas2_serial_gemv_internal.hpp:56-82 | scaling y and then adding every row is the whole update |
| SerialGemv.BetaPhase | blas/impl/KokkosBlas2_serial_gemv_internal.hpp:61-65 | set, scale or nothing: y becomes beta * y and no other cell changes |
| SerialGemv.Unblocked | blas/impl/KokkosBlas2_serial_gemv_internal.hpp:52-85 | for arbitrary strides y = beta * y + alpha * op(A) x, and no cell outside y changes |
| SerialGemv.FiveRows | blas/impl/KokkosBlas2_serial_gemv_inner_multiple_dot.hpp:62-96 | the unrolled kernel for five rows adds alpha * op(A) x to exactly those rows |
| SerialGemv.FourRows | blas/impl/KokkosBlas2_serial_gemv_inner_multiple_dot.hpp:98-131 | the unrolled kernel for four rows adds alpha * op(A) x to exactly those rows |
| SerialGemv.ThreeRows | blas/impl/KokkosBlas2_serial_gemv_inner_multiple_dot.hpp:133-164 | the unrolled kernel for three rows adds alpha * op(A) x to exactly those rows |
| SerialGemv.TwoRows | blas/impl/KokkosBlas2_serial_gemv_inner_multiple_dot.hpp:166-195 | the unrolled kernel for two rows adds alpha * op(A) x to exactly those rows |
| SerialGemv.OneRow | blas/impl/KokkosBlas2_serial_gemv_inner_multiple_dot.hpp:197-217 | the unrolled kernel for one row adds alpha * op(A) x to exactly that row |
| SerialGemv.SerialInvoke | blas/impl/KokkosBlas2_serial_gemv_inner_multiple_dot.hpp:219-355 | every row count up to the block size reaches a case of the switch |
| SerialGemv.Chunk | blas/impl/KokkosBlas2_serial_gemv_internal.hpp:110-111 | one call of the inner kernel adds exactly rows i to i + c - 1 |
| SerialGemv.Blocked | blas/impl/KokkosBlas2_serial_gemv_internal.hpp:87-114 | the blocked form meets the same specification as the unblocked one for every block size from 1 to 5 |
| SerialGemv.RowSumOfViews | blas/impl/KokkosBlas2_serial_gemv_impl.hpp:69-107 | swapping extents and strides reads the transpose, with conjugation the conjugate transpose |
| SerialGemv.ViewsWrittenOut | blas/impl/KokkosBlas2_serial_gemv_impl.hpp:46-108 | the result on memory: cell y + i ys is beta times its old value plus alpha times the sum of the products read at a + i s0 + j s1, or with i and j exchanged, and x + j xs |
| SerialGemv.Invoke | blas/impl/KokkosBlas2_serial_gemv_impl.hpp:47-107 | SerialGemv meets the one-line specification of GEMV for every transpose argument and both algorithms |
| TeamGemv.BetaPhase | blas/impl/KokkosBlas2_team_gemv_impl.hpp:84-87 | setting or scaling the rows in any order makes y beta * y |
| TeamGemv.Drain | blas/impl/KokkosBlas2_team_gemv_impl.hpp:84-102 | what a team does between two barriers, the pending scaling and adding items in any order, has exactly the effect of each item on its rows, provided no row is both scaled and added to |
| TeamGemv.Run | blas/impl/KokkosBlas2_team_gemv_impl.hpp:71-105 | the barrier guarded by beta != one keeps scaling and adding items out of one phase, and the kernel meets the specification |
| TeamGemv.Unblocked | blas/impl/KokkosBlas2_team_gemv_impl.hpp:71-105 | the team form meets the specification for every order of the items of a phase |
| TeamGemv.ChunkRowsBounds | blas/impl/KokkosBlas2_team_gemv_impl.hpp:133-136 | the chunk size is the smaller of the block size and the least number of rows with which no thread gets two chunks |
| TeamGemv.ChunksPartition | blas/impl/KokkosBlas2_team_gemv_impl.hpp:136-141 | the chunks partition the rows, and every chunk is non-empty with at most mb rows |
| TeamGemv.Blocked | blas/impl/KokkosBlas2_team_gemv_impl.hpp:107-146 | the blocked team form meets the specification for every team size, size and block size |
| TeamGemv.VectorUnblocked | blas/impl/KokkosBlas2_team_gemv_impl.hpp:152-185 | the vector form meets it for every reduction tree over the lanes |
| TeamGemv.Invoke | blas/impl/KokkosBlas2_team_gemv_spec.hpp:48-126 | TeamGemv meets the one-line specification of GEMV for every transpose argument |
| TeamGemvSchedules.Footprint | blas/impl/KokkosBlas2_team_gemv_impl.hpp:84-102 | an item stores only to its rows of y and reads besides only A and x |
| TeamGemvSchedules.BarrierIffScaled | blas/impl/KokkosBlas2_team_gemv_impl.hpp:92 | for rows and for chunks of rows, the single loads and stores are race free if and only if there is the barrier or one of the loops has nothing to do |
| TeamGemvScheduleResult.BarrierExactlyWhenNeeded | blas/impl/KokkosBlas2_team_gemv_impl.hpp:89-92 | the kernel has its barrier exactly when it would have a race without, and so never has one |
| TeamGemvScheduleResult.AddEffect | blas/impl/KokkosBlas2_team_gemv_impl.hpp:94-102 | an adding item run alone, round by round over the columns, adds its row sum to each of its rows |
| TeamGemvScheduleResult.PhaseDrains | blas/impl/KokkosBlas2_team_gemv_impl.hpp:84-102 | a phase, in every interleaving, has the effect of its items taken one after the other |
| TeamGemvScheduleResult.AccessesInBounds | blas/impl/KokkosBlas2_team_gemv_impl.hpp:84-102 | every access is inside the memory |
| TeamGemvScheduleResult.EveryScheduleComputesGemv | blas/impl/KokkosBlas2_team_gemv_impl.hpp:71-146 | every schedule that respects the guarded barrier, down to single loads and stores, for rows and for chunks, leaves y = beta * y + alpha * op(A) x and changes no other cell |
| TeamGemvScheduleResult.GemvRunsComplete | blas/impl/KokkosBlas2_team_gemv_impl.hpp:71-146 | every partial schedule extends to a complete one |
| TeamGemvScheduleResult.OrderMatters | blas/impl/KokkosBlas2_team_gemv_impl.hpp:92 | adding before scaling ends right if and only if beta is one or the product is zero |
| TeamGemvScheduleResult.MissingBarrierFails | blas/impl/KokkosBlas2_team_gemv_impl.hpp:92 | without the barrier, for one row, every beta but one and every product but zero, a complete schedule ends wrong |
| Rotmg.UOfLargeQ1 | blas/impl/KokkosBlas1_rotmg_impl.hpp:63-82 | u > 0 whenever abs(q1) > abs(q2), so the zeroing branch for u <= 0 cannot be reached |
| Rotmg.GeneralCases | blas/impl/KokkosBlas1_rotmg_impl.hpp:59-104 | for d1 >= 0 the first rescale loop starts from d1 >= 0, and everything is zeroed if and only if abs(q1) <= abs(q2) with q2 < 0 |
| Rotmg.LargeQ1Branch | blas/impl/KokkosBlas1_rotmg_impl.hpp:63-71 | what the branch abs(q1) > abs(q2) computes, without divisions |
| Rotmg.LargeQ2Branch | blas/impl/KokkosBlas1_rotmg_impl.hpp:95-102 | what the branch abs(q1) <= abs(q2) computes, without divisions, and u >= 1 |
| Rotmg.PassDecreases | blas/impl/KokkosBlas1_rotmg_impl.hpp:108-155 | each rescale pass lowers the floor of max(abs(d), 1 / abs(d)) |
| Rotmg.Loop1 | blas/impl/KokkosBlas1_rotmg_impl.hpp:106-131 | the first loop ends for every d1 >= 0 with d1 zero or strictly inside the band, its sign kept |
| Rotmg.Loop2 | blas/impl/KokkosBlas1_rotmg_impl.hpp:133-156 | the second loop ends for every d2 with abs(d2) zero or strictly inside the band, its sign kept |
| Rotmg.FinalInBand | blas/impl/KokkosBlas1_rotmg_impl.hpp:106-156 | after both loops d1 and abs(d2) are zero or strictly between 4096^-2 and 4096^2 |
| Rotmg.RescaleD1 | blas/impl/KokkosBlas1_rotmg_impl.hpp:106-131 | the loop over the views terminates and computes Loop1 |
| Rotmg.RescaleD2 | blas/impl/KokkosBlas1_rotmg_impl.hpp:133-156 | the loop over the views terminates and computes Loop2 |
| Rotmg.Branches | blas/impl/KokkosBlas1_rotmg_impl.hpp:60-104 | the branch analysis over the views computes General |
| Rotmg.RotmgImpl | blas/impl/KokkosBlas1_rotmg_impl.hpp:28-173 | what the kernel leaves in all its views; for d1 < 0 param is not written, and flags 0 and 1 leave two entries of param alone |
| Rotmg.SpecialOutputs | blas/impl/KokkosBlas1_rotmg_impl.hpp:43-58 | d1 < 0 leaves d1 = d2 = x1 = 0 and param as it was; d2 y1 = 0 sets the flag to -2 and nothing else; abs(q1) <= abs(q2) with q2 < 0 leaves zeros and param [-1, 0, 0, 0, 0] |
| Rotmg.FlagsWrittenOut | blas/impl/KokkosBlas1_rotmg_impl.hpp:60-104 | with flags 0 and 1, which entries of param hold which ratios, which are untouched, and d1, d2 and x1 by u |
| Rotmg.Invoke | blas/impl/KokkosBlas1_rotmg_impl.hpp:189-199 | the same for the views of the caller |
| Rotm.Invoke | blas/impl/KokkosBlas1_rotm_impl.hpp:64-95 | every entry pair becomes its image in any order; a flag other than -2, -1, 0, 1 is rejected with both vectors untouched |
| Rotm.PointWrittenOut | blas/impl/KokkosBlas1_rotm_impl.hpp:41-60 | the image of a pair for each flag, with the places of h11, h21, h12 and h22 in param |
| RotmgConservation.ParamRoundTrip | blas/impl/KokkosBlas1_rotm_impl.hpp:41-60 | rotm reads from param exactly the matrix rotmg wrote |
| RotmgConservation.SameFormEntries | blas/impl/KokkosBlas1_rotmg_impl.hpp:63-103 | a matrix conserves the weighted form at every point if and only if H^T D H is the old diagonal |
| RotmgConservation.GeneralConserves | blas/impl/KokkosBlas1_rotmg_impl.hpp:63-103 | before rescaling the form is conserved and (x1, y1) goes to (x1', 0) |
| RotmgConservation.AtMostOnePass | blas/impl/KokkosBlas1_rotmg_impl.hpp:106-156 | one rescale pass in total keeps both |
| RotmgConditions.CountExact | blas/impl/KokkosBlas1_rotmg_impl.hpp:106-156 | a weight is rescaled k times if and only if its size lies in the k-th band of ratio 4096^2 on either side |
| RotmgConditions.AtMostOnce | blas/impl/KokkosBlas1_rotmg_impl.hpp:106-156 | the loop does not run for sizes strictly between 4096^-2 and 4096^2, and at most once between 4096^-4 and 4096^4 |
| RotmgConditions.FactorsExact | blas/impl/KokkosBlas1_rotmg_impl.hpp:106-156 | the row scales before the last pass are the powers of 4096 that the bands of the two weights name |
| RotmgConditions.WeightsAre | blas/impl/KokkosBlas1_rotmg_impl.hpp:63-103 | before rescaling the weights are d1 / u and d2 / u with u = 1 + q2 / q1, exchanged and with q1 / q2 where q2 is the larger |
| RotmgConservation.FindLastPass | blas/impl/KokkosBlas1_rotmg_impl.hpp:106-156 | with two passes or more, the state the last pass starts from and how its rows have been scaled |
| RotmgConservation.ScalesMoved | blas/impl/KokkosBlas1_rotmg_impl.hpp:106-156 | with two passes or more some row has been scaled before the last pass |
| RotmgConditions.ConservationExact | blas/impl/KokkosBlas1_rotmg_impl.hpp:42-171 | rotmg followed by rotm conserves d1 x^2 + d2 y^2 at every point if and only if d1 >= 0 and there is nothing to rotate, or q2 is positive or the smaller and both weights lie in the middle band but for one in the next, or two equations between powers of 4096 and the inputs hold |
| RotmgConditions.ToAxisExact | blas/impl/KokkosBlas1_rotmg_impl.hpp:42-171 | for every input (x1, y1) goes to (x1', 0) if and only if the conditions of ToAxisHolds on the bands of the weights hold; for d1 < 0 if and only if the param of the caller takes (x1, y1) to zero |
| RotmgExactness.OverwrittenLargeQ1 | blas/impl/KokkosBlas1_rotmg_impl.hpp:113-117 | after two passes or more in the branch abs(q1) > abs(q2) the form survives if and only if two coincidences of the scaled inputs hold |
| RotmgExactness.OverwrittenLargeQ2 | blas/impl/KokkosBlas1_rotmg_impl.hpp:140-144 | after two passes or more in the other branch it never survives |
| RotmgExactness.TwoPassesLoseTheRotation | blas/impl/KokkosBlas1_rotmg_impl.hpp:113-128 | a concrete input with two passes for which both promises fail |
| RotmgConditions.RotmgThenRotm | blas/impl/KokkosBlas1_rotm_impl.hpp:64-95 | on whole vectors rotm is rejected if and only if d1 < 0 and the flag of the caller is unknown; else, under those conditions, every index conserves the form and every pair equal to (x1, y1) goes to (x1', 0) |
| Rotg.RotgImpl | blas/impl/KokkosBlas1_rotg_impl.hpp:28-57 | the scaled computation leaves the rotation of the pair, stated without scaling, roots or divisions |
| Rotg.GivensLaws | blas/impl/KokkosBlas1_rotg_impl.hpp:44-55 | c^2 + s^2 = 1, c a + s b = r, c b - s a = 0 and r^2 = a^2 + b^2 |
| Rotg.GivensUnique | blas/impl/KokkosBlas1_rotg_impl.hpp:44-55 | a pair has only one rotation and one z |
| Rotg.DecodeRoundTrip | blas/impl/KokkosBlas1_rotg_impl.hpp:47-55 | the z left in b decodes by the BLAS rule to exactly c and s |
| Rotg.GivensWrittenOut | blas/impl/KokkosBlas1_rotg_impl.hpp:30-57 | three pairs with their r, z, c and s in numbers, and the zero pair |
| ComplexRotg.NormOfPair | blas/impl/KokkosBlas1_rotg_impl.hpp:74-76 | the scaled computation yields the Euclidean norm of the pair for any choice of complex square roots |
| ComplexRotg.RotgImpl | blas/impl/KokkosBlas1_rotg_impl.hpp:59-82 | c is real and nonnegative, [c s; -conj(s) c] is unitary and turns (a, b) into (r, 0) |
| Rot.Invoke | blas/impl/KokkosBlas1_rot_impl.hpp:36-53 | every entry pair is rotated, in any order |
| Rot.UndoExact | blas/impl/KokkosBlas1_rot_impl.hpp:37-41 | (c, -s) undoes (c, s) on every pair if and only if c^2 + s^2 = 1 |
| Rot.RotateAndBack | blas/impl/KokkosBlas1_rot_impl.hpp:36-53 | rotating two whole vectors and back restores them |
| Rot.RealRotation | blas/impl/KokkosBlas1_rot_impl.hpp:37-41 | with what the real rotg built, rot turns the pair into (r, 0) and can be undone |
| Rot.ComplexRotation | blas/impl/KokkosBlas1_rot_impl.hpp:37-41 | with what the complex rotg built the first entry is r, and the second is zero if and only if b conj(a) is real, because rot does not conjugate s |
| Rot.ComplexRotationMisses | blas/impl/KokkosBlas1_rot_impl.hpp:37-41 | for a = 3 and b = 4i rotg gives c = 3/5, s = -4i/5, r = 5 and rot leaves 24i/5 in the second entry |
| Syr2.PartialIsEntry | blas/impl/KokkosBlas2_syr2_impl.hpp:43-81 | a term skipped because a factor is zero is not missed |
| Syr2.ThreadRow | blas/impl/KokkosBlas2_syr2_impl.hpp:42-86 | a thread updates the entries of its row inside the triangle and nothing else |
| Syr2.ThreadParallel | blas/impl/KokkosBlas2_syr2_impl.hpp:98-115 | the rows in any order give the specified matrix |
| Syr2.ColumnTeam | blas/impl/KokkosBlas2_syr2_impl.hpp:142-189 | a column team does so for its column, its items in any order that takes the two updates of a cell one after the other |
| Syr2.RowTeam | blas/impl/KokkosBlas2_syr2_impl.hpp:192-238 | a row team does so for its row |
| Syr2.TeamParallel | blas/impl/KokkosBlas2_syr2_impl.hpp:250-283 | both layouts give the same matrix as the host kernel |
| Syr2Schedules.Footprint | blas/impl/KokkosBlas2_syr2_impl.hpp:142-238 | a thread of a team touches and writes exactly the cells it updates |
| Syr2Schedules.RaceFreeIffOneThreadPerCell | blas/impl/KokkosBlas2_syr2_impl.hpp:142-238 | with each update a load and a store the team kernels are race free if and only if every cell that both loops add to is given to one thread by both |
| Syr2Schedules.SameThreadIsEnough | blas/impl/KokkosBlas2_syr2_impl.hpp:154-186 | dealing the indices of both loops to the threads alike is enough for that, whatever the arguments |
| Syr2Schedules.ThreadEffect | blas/impl/KokkosBlas2_syr2_impl.hpp:142-238 | what a thread run alone has added to its line after any number of iterations of its two loops |
| Syr2Schedules.EveryScheduleComputesSyr2 | blas/impl/KokkosBlas2_syr2_impl.hpp:250-283 | every schedule of the single loads and stores then leaves the specified entries |
| Syr2Schedules.Syr2RunsComplete | blas/impl/KokkosBlas2_syr2_impl.hpp:250-283 | every partial schedule extends to a complete one |
| Syr2Schedules.LostUpdate | blas/impl/KokkosBlas2_syr2_impl.hpp:154-186 | with an index dealt to two threads a schedule of a 1 by 1 update loses one of the two terms |
| Syr2.UpperMirrorsLower | blas/impl/KokkosBlas2_syr2_impl.hpp:53-84 | the upper result mirrors the lower one, conjugated in H mode, if and only if the matrix did so before |
| Syr2.EntryWrittenOut | blas/impl/KokkosBlas2_syr2_impl.hpp:41-84 | which entries stay, and the two terms of the others with their conjugations in either mode |
| Syr2.HermitianIncrement | blas/impl/KokkosBlas2_syr2_impl.hpp:68-84 | in H mode the increment is Hermitian and real on the diagonal for every alpha |
| Syr2.SymmetricIncrement | blas/impl/KokkosBlas2_syr2_impl.hpp:53-66 | in T mode it is symmetric and complex-linear in alpha |
| Syr2.Invoke | blas/src/KokkosBlas2_syr2.hpp:82-150 | with T, H, U and L in either case: which arguments are rejected, the terms each mode adds to which triangle, and that the other triangle stays, on every target |
| Axpby.RetestExact | blas/impl/KokkosBlas1_axpby_mv_impl.hpp:728-735 | after slicing a coefficient has extent one if and only if it had before or only its last column is left |
| Axpby.StripCoefficient | blas/impl/KokkosBlas1_axpby_mv_impl.hpp:728-735 | in a strip of 8 or 4 columns the re-test never takes a per-column coefficient for a single one |
| Axpby.Combine | blas/impl/KokkosBlas1_axpby_mv_impl.hpp:99-440 | the sixteen branches on the two flags, with or without the test of b for zero, compute the sum of the two parts |
| Axpby.CombinedIsEntry | blas/impl/KokkosBlas1_axpby_spec.hpp:195-229 | the flags chosen from the coefficients make that sum a(j) X + b(j) Y |
| Axpby.Unrolled | blas/impl/KokkosBlas1_axpby_mv_impl.hpp:1201-1303 | a strip of columns is updated and no other column |
| Axpby.Generic | blas/impl/KokkosBlas1_axpby_impl.hpp:306-409 | a single column is updated and no other |
| Axpby.InvokeLeft | blas/impl/KokkosBlas1_axpby_mv_impl.hpp:1475-1511 | strips of 8, of 4 and of 1 update every column exactly once |
| Axpby.InvokeRight | blas/impl/KokkosBlas1_axpby_mv_impl.hpp:1562-1571 | the unsliced form computes the same Y |
| Axpby.Run | blas/impl/KokkosBlas1_axpby_spec.hpp:192-245 | Y(i, j) = a(j) X(i, j) + b(j) Y(i, j) for either layout and coefficients of extent 0, 1 or the number of columns |
| Axpby.RunVector | blas/impl/KokkosBlas1_axpby_spec.hpp:345-398 | the rank-1 case is the single-column kernel at column zero |
| Axpby.Invoke | blas/impl/KokkosBlas1_axpby_unification_attempt_traits.hpp:386-470 | for multivectors and coefficients that are numbers or views of rank 0 or 1, which shapes and extents are rejected, with Y untouched, and that host and device compute the same Y |
| Axpby.InvokeVector | blas/impl/KokkosBlas1_axpby_unification_attempt_traits.hpp:386-470 | the same for vectors, where a rank-1 coefficient must have one entry |
| Axpby.UpdateWrittenOut | blas/impl/KokkosBlas1_axpby_unification_attempt_traits.hpp:707-740 | the value of a coefficient in a column: that of a number or of a view of one entry, else entry j |
| Axpby.OneEntryIsNumber | blas/impl/KokkosBlas1_axpby_unification_attempt_traits.hpp:415-440 | a view of one entry gives the same Y as the number it holds |
| Iamax.TreeIsFold | blas/impl/KokkosBlas1_iamax_impl.hpp:58-72 | the shape of a reduction tree does not matter, only the order in which it visits the indices |
| Iamax.TreeFindsMaximum | blas/impl/KokkosBlas1_iamax_impl.hpp:58-72 | for every chunking and join tree the result is an index of maximum magnitude |
| Iamax.FindsFirstExactly | blas/src/KokkosBlas1_iamax.hpp:24-36 | a tree returns the smallest such index for every vector if and only if it visits the indices after the first in increasing order |
| Iamax.EveryTreeExactly | blas/src/KokkosBlas1_iamax.hpp:24-36 | every tree returns the smallest such index of a given vector if and only if its first entry is a maximum or its maximum occurs once |
| Iamax.ReduceTree | blas/impl/KokkosBlas1_iamax_impl.hpp:58-72 | init, operator() and join along a tree |
| Iamax.Invoke | blas/impl/KokkosBlas1_iamax_impl.hpp:79-96 | zero for an empty vector, else an index of maximum magnitude, the smallest for an ordered tree |
| Iamax.InvokeMultiVector | blas/impl/KokkosBlas1_iamax_impl.hpp:102-108 | for every column j no entry of x in column j is larger than entry r(j), and with an ordered tree none before it is as large |
| OptionParser.ParseIsFilter | perf_test/KokkosKernels_perf_test_utilities.hpp:178-223 | parsing succeeds if and only if every integer option has its integer, and then leaves exactly the unrecognised arguments, in order |
| OptionParser.LastUseWins | perf_test/KokkosKernels_perf_test_utilities.hpp:190-208 | each parameter ends with the value after the last use of its option, plus one for a device |
| OptionParser.ParseTwice | perf_test/KokkosKernels_perf_test_utilities.hpp:178-223 | parsing again changes neither arguments nor parameters |
| OptionParser.KindsWrittenOut | perf_test/KokkosKernels_perf_test_utilities.hpp:189-208 | which literal names, in any case, are which options |
| OptionParser.OptionsWrittenOut | perf_test/KokkosKernels_perf_test_utilities.hpp:189-208 | for each literal name the parameter that is set, plus one for the three devices |
| OptionParser.ErrorsWrittenOut | perf_test/KokkosKernels_perf_test_utilities.hpp:125-138 | what is thrown and stored for a missing or bad value |
| OptionParser.CheckArgInt | perf_test/KokkosKernels_perf_test_utilities.hpp:125-138 | when an option matches, what is stored and what is thrown |
| OptionParser.CheckOptions | perf_test/KokkosKernels_perf_test_utilities.hpp:189-208 | the chain of checks decides by the kind of the argument |
| OptionParser.ShiftLeft | perf_test/KokkosKernels_perf_test_utilities.hpp:210-217 | the tail of argv, its null pointer included, moves left over the removed arguments and the front stays |
| OptionParser.ParseCommonOptions | perf_test/KokkosKernels_perf_test_utilities.hpp:178-223 | the loop terminates; argv is null-terminated at the new argc, holds what parsing leaves, and params and error are those of the parse |

## Left out

- Floating-point rounding, overflow, NaN and the wider accumulators of the half-precision types.
- Widths of index types: extents and addresses are unbounded integers, except that M and N and their product wrap at 32 bits in the choice of the GEMM kernel. `use_cuda++` and its like do not wrap either.
- Aliasing of the const operands with the output in the kernels on views; the kernels on flat memory do share one array, with y apart from A and x.
- The raw rank-1 views over B and C in the GEMV shortcut of GEMM: the column of C is read out, updated and written back. That a single column lies contiguously in memory is taken from the comment in the code (blas/src/KokkosBlas3_gemm.hpp:49-51).
- How Kokkos deals the indices of a range to the threads of a team: `SameThread` states what the SYR2 team kernels need of it. The vector lanes that reduce one row of team GEMV are one item of the machine; `TeamGemv.VectorUnblocked` covers the tree of the reduction.
- The two barriers around the atomic adds of the LayoutLeft GEMV kernel are the ends of the loops of `TwoLevelGemv.LayoutLeftTeam`: the machine has no atomic add.
- `GEMMImpl` scratch level, vector length and team size: they do not affect the result in the model, where a team may run its items in any order.
- The choice between several element orders of the block copies and updates by layout: one loop in any order stands for all of them.
- Template plumbing: ETI and TPL dispatch, unification of scalar types in axpby, int versus int64 index selection, profiling regions, static assertions.
- The 16 instantiations of the axpby functors are one method that branches on the two flags.
- SYR and GER, TRMM, the nrm1, nrm2 and sum kernels, and the entry-wise Level 1 kernels: they repeat what is here or are single expressions.
- The text of error messages and number parsing; an error is an outcome value. What the option parser leaves in argv after an error is modelled, what the caller does with it is not.
