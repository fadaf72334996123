# Verification of the guest's GPU scheduling and mesh algorithms

A Dafny model of the parts of the guest that are state machines, schedules and index
algorithms, with proofs of what they are for. Files follow the components:

- **Recording GPU commands.** `GpuOrder` gives the meaning of a recorded list: between two
  barriers the device may interleave the word-level reads and writes of all dispatches in
  any way, and a kernel is any deterministic program that stays inside its declared reads
  and writes. `RdPack` and `RdGraph` model `graph_compute` (packing, range tests, barrier
  elision, binding); `SetCache` the cached uniform sets under index reuse;
  `DeviceTransfers` the device's chunked transfers and permanent slots. `AvbdKernels`,
  `AvbdCpuOrder` and `AvbdRecord` model the cloth solver's hand-placed barriers, forward and
  backward, against the order of the CPU solver;
  `LazyDuals` its lazily copied pre-step duals; `VecPhases` and `VecRd` the vector backend
  whose dispatch sites are cached and rewritten in place.
- **The coloured solver.** `AvbdTopology` (CSR), `AvbdColoring` (greedy colouring),
  `AvbdSweep` (Gauss-Seidel), `AvbdCpu` (the solver class).
- **BLAKE3.** `Blake3Tree`: the tree of section 2.1 of the BLAKE3 specification over any
  compression function; `Blake3Calls`: the compressions that tree is made of, and the
  digits; `Blake3Stream`: the streaming context against both.
- **Closest point.** `TriangleGeometry` and `BodyMesh`, over the reals.
- **L-BFGS-B.** `StepSelection` is the trial step a bracket suggests (the quadratic and
  cubic interpolations, cubicMin's tolerance included), `MoreThuente` the line search as a
  direct-style loop, `SearchExamples` searches that come out badly, and `Lbfgsb` the
  reverse-communication driver over its buffers, against that loop.
- **Meshes.** `Weld`, `BoundaryLoops`, `UnionFind`, `MeshTopology`, `ClothIslands`,
  `PanelTiles`.
- **Frames.** `FrameSchedule`: stage queue, simulation, backward pass and the device's
  submit and sync counters as one system.
- `Options` holds the one shared datatype.

`dafny verify dfyconfig.toml` checks everything.

How to read the statements. Kernels, `compress`, the objective and the solver's physics are
arbitrary functions, so the theorems hold whatever they compute. Failures of the engine
(an allocation refused, a copy that fails, a read that fails) are arbitrary Boolean
answers passed in, so the error paths are covered except where Left out says otherwise. In `Lbfgsb`, `Valid` and `Advanced` say
what each phase means: `Searching`, `Evaluated`, `Restorable` and `Settled` tie the buffers
and the resumed search to one run of the direct-style loop, and the ghost `trail` holds the
points searches started from, each below what was reported for the one before it. In `FrameSchedule`, `Orderly`
says what a stretch of work inside one frame may do to the counters.

## What the proofs showed

- `weld` joins the least representative of the first of the 27 cells that has a hit. That
  is the first earlier representative its comment names if and only if the scan reaches a
  bucket with that one before any other bucket with a hit (`Weld.JoinsEarliestExactly`).
  With the source's hash and eps 1, of vertices at 2.3, 0.7 and 1.5 on a line the third
  joins the second although the first is within eps (`Weld.CellOrderDecides`). The
  set-level promises hold all the same.
- `closestInTri` finds the nearest point of every triangle, degenerate ones included, except
  exactly when `a == b` and the query lies beyond `a` towards `c`: there it divides by an
  edge of length zero and the triangle is missed (`TriangleGeometry.CollapsedEdgeMisses`).
- `topology`'s walks all close if and only if every vertex has as many boundary edges in as
  out. A mesh with no directed edge used twice has; two triangles with the same winding on
  their shared edge have not.
- Every accepted point meets the ftol bound of its line, with no exception, and with a
  positive `min_step` lies ahead of the start, so it is strictly below the value reported
  for the previous accepted point (`LbfgsbDriver.SettledDecreases`, `Improves`). The one
  way a reported value is not the point's own is the `step_max` exit from a pass whose trial
  is too high, and that happens exactly when cubicMin, within its tolerance, takes a cubic
  for a quadratic and puts the turn so far out that the mean with quadMin3's point is not
  below `step_max` (`MoreThuente.RestoresOtherExactly`; an input is
  `SearchExamples.ExitKeepsTheTrial`). In a search without such a pass the exit restores
  nothing but the trial (`MoreThuente.PassKeepsProper`, `SearchExact`).
- The search loses its step, zero times infinity, exactly when a trial is too high and the
  cubic's inflection is at step 0 (`MoreThuente.LosesStepExactly`): with ftol 1/4, on
  3/2 x^3 - x from 0 along 1 (`SearchExamples.InflectionLosesTheSearch`).
- `min_step` is not validated. Every negative one lets some search end behind its start,
  at a higher value (`SearchExamples.NegativeStepIncreases`); with one that is not negative
  no accepted point is above its start.
- `AvbdRd` and `AvbdCpu` run the backward pass in one order but for the sum of the inertial
  and direct paths, which the recording takes before the scatters and the CPU after them; no
  memory tells the difference (`AvbdRecord.SumCommutes`).
- `VecRd::run` compares a dynamic site's coefficients as floats. +0 and -0 pass and differ
  in bits, so every dispatch sees its own words if and only if no dynamic site is asked for
  two different blocks (`VecRdBackend.RightUnlessClashed`). After a `setup` that failed halfway, ops over the
  missing buffers are refused (`VecRdBackend.VecRd.MakeSite`).
- Before `buildColoring`, and after `restrictToOwned`, all moving vertices share one colour;
  a step is then not Gauss-Seidel when two of them share a constraint
  (`AvbdSweep.SharedColorDiffers`).
- A staging cap that is not a multiple of 4 makes every longer read fail at its first piece
  (`DeviceTransfers.OddCapRefuses`), since a copy takes whole words. A read of the last,
  partial word of a buffer whose size is not whole words fails too
  (`DeviceTransfers.Stageable`).
- A `BodyMesh::build` refused for an index, unlike one refused for its sizes, leaves the
  old tree over the new vertices and the indices before the bad one; with the third index
  bad that is no triangle at all (`BodyMeshQuery.BodyMesh.Build`, `BadIndexRefused`,
  `StaleTree`).
- A step of a fit that converges ends the fit, and starts the settle, if and only if
  `fitSettle > 0`; with `fitSettle == 0` the count goes on falling with the steps
  (`FrameSchedule.Session.FitStage`).

## Model

| member | source | states |
|---|---|---|
| `RdPack.RangeIsTouchedWords` | guest/ggml-rd/rd_graph.cpp:78-81 | a non-empty tensor's widened byte range covers exactly the 4-byte words its bytes lie in |
| `RdPack.OverlapIsSharedWord` | guest/ggml-rd/rd_graph.cpp:51-58 | the range test of two non-empty tensors says yes if and only if some word is touched by both |
| `RdPack.WideningMatters` | guest/ggml-rd/rd_graph.cpp:75-81 | two 16-bit tensors that share a word whose unwidened ranges do not overlap: without the widening the test misses the hazard |
| `RdPack.Overlaps` | guest/ggml-rd/rd_graph.cpp:51-58 | the loop answers whether some noted range meets the given one |
| `RdPack.Bindings` | guest/ggml-rd/rd_graph.cpp:151-168 | slot s of three binds source s's buffer, or the destination's when there is none; the reads are exactly the ranges of the sources present |
| `RdPack.Pack` | guest/ggml-rd/rd_graph.cpp:130-197 | every packed dispatch is of a node of the graph that runs: the node's kernel and groups, its sources' buffers in the first three slots with the destination in the fourth and in place of a missing source, its sources' ranges read and its destination's written |
| `RdPack.PackMeaning` | guest/ggml-rd/rd_graph.cpp:130-197 | packing refuses exactly when some node that runs has no kernel, fill or launch; otherwise it keeps graph order, drops exactly the skipped nodes, and packed plus skipped count every node |
| `RdPack.RunningKeepsOrder` | guest/ggml-rd/rd_graph.cpp:130-136 | the nodes that run are those at increasing positions of the graph, and a position is left out exactly when its node is skipped |
| `RdGraph.NotesAreHazard` | guest/ggml-rd/rd_graph.cpp:302-328 | the three tests against the accumulated reads and writes are the pairwise read-write conflict with some dispatch since the last barrier |
| `RdGraph.FindHazard` | guest/ggml-rd/rd_graph.cpp:302-308 | the short-circuiting tests find a hazard exactly when RAW, WAW or WAR holds, or a barrier is asked for anyway |
| `RdGraph.RangesConflictExactly` | guest/ggml-rd/rd_graph.cpp:302-308 | between dispatches of tensors that are not empty the range tests find a conflict if and only if one of them writes a word the other reaches through the buffers it is launched on |
| `RdGraph.OwnFootprint` | guest/ggml-rd/rd_graph.cpp:276-281 | launched with the set of its own bindings, a kernel that addresses its slot's tensors in the bound buffers reaches exactly the words of its node's tensors |
| `RdGraph.BindAndIssue` | guest/ggml-rd/rd_graph.cpp:329-338 | skipping binds that did not change still launches the dispatch with its own pipeline, tensor set and slot |
| `RdGraph.Record` | guest/ggml-rd/rd_graph.cpp:287-343 | the recorded commands, replayed, launch every dispatch with its own pipeline, tensor set, slot and groups, in segments cut exactly where the elision rule says; the barrier count is right |
| `RdGraph.GraphCompute` | guest/ggml-rd/rd_graph.cpp:100-350 | refused exactly when a node that runs is not accepted, nothing to do exactly when all nodes are skipped, otherwise one recorded list, which launches the nodes that run in graph order: launch j with node j's kernel and groups, params slot j, and the tensor set of [source 0, 1, 2, destination], a missing source being the destination |
| `GpuOrder.SegmentIsInOrder` | guest/ggml-rd/rd_graph.cpp:12-17 | any word-level interleaving of dispatches no two of which conflict ends in the memory of running them one after another |
| `GpuOrder.DeviceIsInOrder` | guest/ggml-rd/rd_graph.cpp:215-245 | a list of conflict-free segments can end in a memory if and only if the fallback's loop, one dispatch after another, ends in it |
| `GpuOrder.InOrderDeterministic` | guest/ggml-rd/rd_graph.cpp:220-245 | running dispatches one after another has at most one result, so the device's result is unique |
| `GpuOrder.ConflictMatters` | guest/ggml-rd/rd_graph.cpp:309-318 | one conflicting pair left between barriers can end in a memory graph order never gives |
| `GpuOrder.MoveWithin` | guest/avbd/avbd_cpu_backward.cpp:316-324 | in a list run one task after another, a task may change places with a run of tasks it conflicts with none of |
| `RdGraph.ElisionSound` | guest/ggml-rd/rd_graph.cpp:298-342 | for every packed list, cached sets that bind what they were asked for, kernels that stay inside their slot's tensors in the bound buffers, and any interleaving between the recorded barriers: the device ends in a memory if and only if graph order does |
| `RdGraph.GraphMeansOrder` | guest/ggml-rd/rd_graph.cpp:130-342 | the same for the tensor graph itself: what is submitted means running the graph's nodes that are not skipped, in order, node j reading the words of its own sources and writing those of its own destination |
| `RdGraph.ElisionMinimal` | guest/ggml-rd/rd_graph.cpp:298-328 | the greedy placement separates every conflicting pair, and no placement that does uses fewer barriers |
| `SetCache.Caches.ParamsBuffer` | guest/ggml-rd/rd_kernels.cpp:94-121 | a table big enough is kept with every cached set; growing it forgets every tensor set before the old table goes; on success it holds the slots asked for |
| `SetCache.Caches.TensorSet` | guest/ggml-rd/rd_kernels.cpp:152-176 | hit or made, the set binds exactly the five live buffers asked for, in order, whatever indices were freed and reused before; a hit makes nothing |
| `SetCache.Caches.SlotSet` | guest/ggml-rd/rd_kernels.cpp:123-150 | slots are made in order and slot i's set binds a live buffer that holds base 64 * i |
| `SetCache.Caches.OneSlot` | guest/ggml-rd/rd_kernels.cpp:130-148 | a slot whose buffer or set cannot be made leaves nothing on the device or in the lists; a made one extends both lists by one |
| `SetCache.FreeLoose` | guest/ggml-rd/rd_kernels.cpp:138-142 | freeing a buffer nothing cached binds keeps the cache coherent |
| `SetCache.Caches.AllocBuffer` | guest/ggml-rd/ggml-rd.cpp:286-302 | a tensor buffer gets an index not in use, possibly one that was freed, and the cache stays coherent |
| `SetCache.Caches.FreeBuffer` | guest/ggml-rd/ggml-rd.cpp:92-104 | the cached sets of a freed buffer are forgotten with it and no other |
| `SetCache.MakeKeeps` | guest/ggml-rd/rd_kernels.cpp:152-176 | making anything under a free index keeps the cache coherent |
| `SetCache.FreeTensor` | guest/ggml-rd/rd_kernels.cpp:178-190 | freeing a tensor buffer, with forget_sets_of first, keeps every remaining cached set bound to its live buffers |
| `SetCache.FreeParams` | guest/ggml-rd/rd_kernels.cpp:104-114 | freeing the params table and clearing the tensor sets keeps the cache coherent |
| `SetCache.HitBinds` | guest/ggml-rd/rd_kernels.cpp:155-158 | a key in a coherent cache names a live set bound to the five live buffers of the key |
| `AvbdRecord.AvbdRd.RecordForces` | guest/avbd/avbd_rd.cpp:702-732 | init and the non-empty families' force kernels, then one barrier |
| `AvbdRecord.AvbdRd.RecordGathers` | guest/avbd/avbd_rd.cpp:736-773 | the non-empty families' gathers, each followed by its barrier |
| `AvbdRecord.AvbdRd.RecordIteration` | guest/avbd/avbd_rd.cpp:688-782 | every non-empty colour in order: forces, gathers, solve, with the hand-placed barriers |
| `AvbdRecord.AvbdRd.RecordDuals` | guest/avbd/avbd_rd.cpp:784-804 | the dual updates of the non-empty families, one barrier, and the duals marked dirty |
| `AvbdRecord.AvbdRd.SnapshotPreStep` | guest/avbd/avbd_rd.cpp:668-684 | the pre-step copies, those of the duals only when they are dirty, and the flag cleared |
| `AvbdRecord.AvbdRd.RecordRun` | guest/avbd/avbd_rd.cpp:899-919 | iterations 1..n-1 in one list, the snapshot between lists, the last iteration in a list left open |
| `AvbdRecord.AvbdRd.RecordBackward` | guest/avbd/avbd_rd_backward.cpp:143-243 | the backward pass with its barriers: delta, solve adjoint, gather adjoints, force adjoints, the sum, the scatters, the gradient; `BackwardIsCpu` compares it with the CPU solver's |
| `AvbdRecord.AvbdRd.RecordRunWithBackward` | guest/avbd/avbd_rd_backward.cpp:258-273 | the cotangent up and the accumulators cleared, the run, and then the backward pass in the list the run left open; what it means is `RunWithBackwardMeansOrder` |
| `AvbdRecord.AvbdRd.PrepareBackward` | guest/avbd/avbd_rd_backward.cpp:131-141 | the three transfers, before any list |
| `AvbdRecord.RunClean` | guest/avbd/avbd_rd.cpp:688-804 | for every colour count, iteration count, duals flag and mix of empty families, any two recorded dispatches or copies that touch one buffer with a write are separated by a barrier or a list boundary |
| `AvbdRecord.BackwardSeparated` | guest/avbd/avbd_rd_backward.cpp:143-243 | the same for the backward pass |
| `AvbdRecord.RunWithBackwardSeparated` | guest/avbd/avbd_rd_backward.cpp:258-273 | the same across the transfers, the run and the seam with the backward pass in its last list |
| `AvbdRecord.SeparatedIsInOrder` | guest/avbd/avbd_rd.cpp:648-660 | a separated recording can end in a memory if and only if its commands in recording order do, whatever the kernels do inside their buffers |
| `AvbdRecord.RunIsCpu` | guest/avbd/avbd_cpu.cpp:247-472 | the dispatches of a recorded run are the blocks of the CPU solver's steps and dual updates, each with its kernel, thread count and buffers in its roles, in its order |
| `AvbdRecord.RunMeansCpuOrder` | guest/avbd/avbd_rd.cpp:887-919 | however the device interleaves what the hand-placed barriers leave unordered, a run means the CPU solver's order |
| `AvbdRecord.BackwardIsCpu` | guest/avbd/avbd_cpu_backward.cpp:109-324 | the recorded backward pass is `AvbdCpu::stepBackward`'s blocks, each with its kernel, thread count and buffers in its roles, in its order, but for the sum, which the recording takes before the scatters |
| `AvbdRecord.SumCommutes` | guest/avbd/avbd_rd_backward.cpp:208-212 | a list with the sum before the scatters ends in a memory if and only if the one with the sum after them does |
| `AvbdRecord.RunWithBackwardMeansOrder` | guest/avbd/avbd_rd_backward.cpp:258-273 | however the device interleaves what the barriers leave unordered, a run with the backward pass ends in a memory if and only if the transfers and the run in order, followed by `stepBackward`'s dispatches in the CPU solver's own order, do; the run's dispatches are the CPU solver's run |
| `LazyDuals.LazyIsEager` | guest/avbd/avbd_rd.cpp:668-684 | where only updated duals have stale copies, the lazy copies are the eager ones |
| `LazyDuals.RunIsEager` | guest/avbd/avbd_rd.cpp:899-919 | a recorded run leaves the memory the CPU solver's run leaves, pre-step copies included |
| `LazyDuals.StepKeepsRelated` | guest/avbd/avbd_rd.cpp:834-897 | every upload, step, dual step and run keeps the two backends' buffers equal, but for the pre-step positions before the first step, and the flag honest: not dirty means copies equal duals |
| `LazyDuals.LazyEqualsEager` | guest/avbd/avbd_cpu.cpp:251-256 | over every sequence of operations the two backends hold the same buffers, pre-step duals included, and once a step is made the pre-step positions too |
| `LazyDuals.FreshIsRelated` | guest/avbd/avbd_rd.cpp:227-276 | two fresh backends start out related, the CPU without pre-step positions |
| `AvbdTopology.BuildCsr` | guest/avbd/avbd_topology.cpp:6-32 | the counting sort fills the CSR that lists incidence |
| `AvbdTopology.CsrExact` | guest/avbd/avbd_topology.cpp:6-32 | the entries of a vertex's bucket are exactly the (constraint, role) pairs where it stands, each once, in increasing order |
| `AvbdColoring.Adjacency` | guest/avbd/avbd_topology.cpp:37-63 | two vertices are linked exactly when some spring, triangle or bending stencil holds both; none is linked to itself |
| `AvbdColoring.PickColor` | guest/avbd/avbd_topology.cpp:68-79 | the least colour no coloured neighbour has, found within degree + 1 candidates |
| `AvbdColoring.ColorVertices` | guest/avbd/avbd_topology.cpp:65-80 | every vertex gets the least colour free among its earlier neighbours |
| `AvbdColoring.NumColors` | guest/avbd/avbd_topology.cpp:81-89 | one more than the largest colour used, and at least 1 |
| `AvbdColoring.SortByColor` | guest/avbd/avbd_topology.cpp:90-105 | the counting sort lists the vertices of every colour in its bucket |
| `AvbdColoring.LeastFreeIsProper` | guest/avbd/avbd_topology.cpp:34-106 | least-free colours never give two vertices of one constraint the same colour |
| `AvbdColoring.GreedyColoring` | guest/avbd/avbd_topology.cpp:34-106 | the batches tile the vertices, hold each once, are sorted by least-free colour, and never hold two vertices of one constraint |
| `AvbdSweep.SweepIsGaussSeidel` | guest/avbd/avbd_cpu.cpp:257-411 | if no colour holds two vertices of a constraint, the batched passes give the positions of solving the vertices one at a time, for every physics and every mesh |
| `AvbdSweep.BatchesSeparate` | guest/avbd/avbd_topology.cpp:34-106 | the colouring's batches are separated in every family, attachments included |
| `AvbdSweep.SharedColorDiffers` | guest/avbd/avbd_cpu.cpp:84-106 | a colour that does hold two vertices of a constraint makes the sweep differ from Gauss-Seidel for some physics and positions: the condition is exact |
| `AvbdCpuSolver.AvbdCpu.constructor` | guest/avbd/avbd_cpu.cpp:84-106 | setup: no constraints, the identity order, one colour |
| `AvbdCpuSolver.AvbdCpu.Upload` | guest/avbd/avbd_cpu.cpp:108-168 | an upload replaces one family and its CSR, keeps the other families and the colours |
| `AvbdCpuSolver.AvbdCpu.BuildColoring` | guest/avbd/avbd_cpu.cpp:170-173 | after it the batches are separated in every family |
| `AvbdCpuSolver.AvbdCpu.RestrictToOwned` | guest/avbd/avbd_cpu.cpp:474-483 | only the first nOwned vertices move, in one colour |
| `AvbdCpuSolver.AvbdCpu.Force` | guest/avbd/avbd_cpu.cpp:282-328 | a force kernel stores its family's gradients at the current positions and no other's |
| `AvbdCpuSolver.AvbdCpu.Gather` | guest/avbd/avbd_cpu.cpp:333-400 | a gather adds exactly the family's incident gradients to the colour's vertices |
| `AvbdCpuSolver.AvbdCpu.ColorPass` | guest/avbd/avbd_cpu.cpp:258-411 | one colour is one batch: every vertex of it solved against the positions before the colour |
| `AvbdCpuSolver.AvbdCpu.Step` | guest/avbd/avbd_cpu.cpp:247-412 | the step snapshots the positions and is the coloured sweep; with separated colours it is Gauss-Seidel in vertPerm order |
| `Blake3Tree.TreeSplit` | guest/common/blake3.h:99-108 | more than 2^j and at most 2^(j+1) chunks split after 2^j chunks |
| `Blake3Calls.TreeHashes` | guest/common/blake3.h:79-110 | the tree is a tree of compressions: the blocks of every chunk chained from IV with its number, lengths and CHUNK_START and CHUNK_END flags, their words the bytes weighted by powers of 256; parents over the eight words of the left child and then of the right, the left one holding the largest power of two of chunks that leaves some |
| `Blake3Calls.LeavesAreChunks` | guest/common/blake3.h:157-190 | the leaves of such a tree, in order, are the message's chunks with the numbers 0, 1, 2 and so on |
| `Blake3Calls.NoneIsRoot` | guest/common/blake3.h:164-165 | no compression in the tree carries ROOT; the digest's one does |
| `Blake3Calls.DigestSpells` | guest/common/blake3.h:166-173 | the 64 digits spell the first eight words, four byte pairs each, low byte first |
| `Blake3Stream.FoldIsTree` | guest/common/blake3.h:157-163 | merging the stack into the output of what follows gives the tree of the whole message |
| `Blake3Stream.StackIsSetBits` | guest/common/blake3.h:192-199 | the stack holds one perfect subtree per set bit of the chunk count |
| `Blake3Stream.StackDepth` | guest/common/blake3.h:206-206 | below 2^54 chunks the stack stays within 54 entries |
| `Blake3Stream.PushRun` | guest/common/blake3.h:193-199 | pushing onto an even count of runs adds one perfect subtree |
| `Blake3Stream.CarryRun` | guest/common/blake3.h:193-199 | an odd count ends in a run that merges with the next into one twice as long, so popping never underflows |
| `Blake3Stream.LastBlock` | guest/common/blake3.h:180-190 | a chunk with only its last block kept finishes as the whole chunk does |
| `Blake3Stream.Ctx.ChunkOutput` | guest/common/blake3.h:180-190 | the output of the current chunk is the specification's |
| `Blake3Stream.Ctx.PushChunk` | guest/common/blake3.h:193-199 | one merge per trailing zero of the total turns the stack of n - 1 chunks into that of n, within the 54 entries |
| `Blake3Stream.Ctx.Update` | guest/common/blake3.h:124-154 | whatever the cut into calls, the state is that of all bytes hashed so far |
| `Blake3Stream.Ctx.Hex` | guest/common/blake3.h:157-174 | 64 lowercase hexadecimal digits; read as byte pairs, low byte first, they spell the first eight words of the root's compression with ROOT, over a tree of calls that hashes all bytes so far |
| `Blake3Stream.Hex` | guest/common/blake3.h:210-214 | the same of the one-shot digest |
| `TriangleGeometry.ClosestPointIsNearest` | guest/drape/body_mesh.cpp:128-187 | the region tests give the nearest point of every triangle, degenerate ones included, and fail exactly when a == b and p lies beyond a towards c (a division by a zero length) |
| `TriangleGeometry.CollapsedEdgeMisses` | guest/drape/body_mesh.cpp:128-187 | a triangle with a == b that is missed although the query is its corner c |
| `TriangleGeometry.ClosestPointOnRegion` | guest/drape/body_mesh.cpp:128-187 | the region reported, which picks the pseudo-normal, is one the point lies on |
| `BodyMeshQuery.PruneIsSafe` | guest/drape/body_mesh.cpp:11-18 | a box that is not nearer than the best distance holds no nearer triangle |
| `BodyMeshQuery.BoxDist2Attained` | guest/drape/body_mesh.cpp:11-18 | the box bound is the squared distance to the box: no point of the box is nearer, and one is as near |
| `BodyMeshQuery.HeightBound` | guest/drape/body_mesh.cpp:107-121 | halving down to 4 triangles gives a tree of height at most h for up to 4 * 2^h triangles |
| `BodyMeshQuery.StacksTop` | guest/drape/body_mesh.cpp:196-225 | the stack always has room for two more of its 64 entries, so the guard never drops a subtree |
| `BodyMeshQuery.BodyMesh.Boxes` | guest/drape/body_mesh.cpp:87-104 | the box of a run of triangles holds each of them |
| `BodyMeshQuery.BodyMesh.BuildNode` | guest/drape/body_mesh.cpp:87-126 | the subtree covers exactly its run, its boxes bound its triangles, and order_ stays a permutation touched only in the run |
| `BodyMeshQuery.BodyMesh.Build` | guest/drape/body_mesh.cpp:27-85 | accepts exactly the meshes the checks allow and then builds a whole tree over the scaled vertices; bad sizes change nothing, a bad index leaves the scaled vertices and the indices before it under the old tree |
| `BodyMeshQuery.BadIndexRefused` | guest/drape/body_mesh.cpp:38-44 | a refused mesh of which only two indices are kept |
| `BodyMeshQuery.BodyMesh.StaleTree` | guest/drape/body_mesh.cpp:38-44 | such a mesh is not what any tree was built for |
| `BodyMeshQuery.BodyMesh.ClosestInTri` | guest/drape/body_mesh.cpp:128-187 | keeps the hit unless the triangle's foot is nearer, and then takes it |
| `BodyMeshQuery.BodyMesh.Closest` | guest/drape/body_mesh.cpp:189-227 | finds a hit if and only if some triangle's foot is nearer than the limit; the hit is a triangle's foot and none is nearer: brute force over all triangles |
| `BodyMeshQuery.ReportIsNearest` | guest/drape/body_mesh.cpp:189-227 | a hit is reported if and only if some triangle's foot is nearer than the limit; it lies on its triangle, and no point of any triangle `closestInTri` handles is nearer |
| `BoundaryLoops.CountEdges` | guest/curvenet/curvenet_api.cpp:577-586 | the two maps count directed and undirected uses |
| `BoundaryLoops.Boundary` | guest/curvenet/curvenet_api.cpp:588-594 | the boundary edges are the directed edges whose undirected edge is used once, each once, in order |
| `BoundaryLoops.WalkOne` | guest/curvenet/curvenet_api.cpp:597-611 | one walk removes exactly the edges it reports; it closes, or a vertex was unbalanced |
| `BoundaryLoops.Walk` | guest/curvenet/curvenet_api.cpp:595-612 | the loops use every boundary edge exactly once, and all close, the open-chain break never taken, if and only if every vertex has as many boundary edges in as out; then, closed up, they are the boundary |
| `BoundaryLoops.LoopsBalance` | guest/curvenet/curvenet_api.cpp:595-612 | conversely, closed loops that make up the boundary leave every vertex balanced |
| `BoundaryLoops.OrientedIsBalanced` | guest/curvenet/curvenet_api.cpp:573-612 | if every undirected edge used more than once is used as often one way as the other, the boundary is balanced |
| `BoundaryLoops.UsedOnceIsOriented` | guest/curvenet/curvenet_api.cpp:573-612 | a mesh with no directed edge used twice has that property, degenerate triangles or not |
| `BoundaryLoops.BoundarySurplus` | guest/curvenet/curvenet_api.cpp:573-594 | at each vertex the boundary misses balance by exactly what the interior edges do |
| `UnionFind.Find` | guest/avbd/cloth_grid.cpp:181-187 | path halving changes no representative and returns the vertex's |
| `UnionFind.Union` | guest/avbd/cloth_grid.cpp:188-190 | joins exactly the two classes |
| `UnionFind.OneMoreEdge` | guest/avbd/cloth_grid.cpp:188-190 | one union keeps the classes equal to the path-connected components of one edge more |
| `MeshTopology.JoinMin` | guest/curvenet/curvenet_api.cpp:629-632 | the larger root put under the smaller joins exactly the two classes |
| `MeshTopology.RootsCountComponents` | guest/curvenet/curvenet_api.cpp:635-640 | the used roots are one per component that has a triangle |
| `MeshTopology.CountComponents` | guest/curvenet/curvenet_api.cpp:613-640 | the number counted is that of the connected components with a triangle: some set of that size holds one used vertex of each |
| `MeshTopology.Topology` | guest/curvenet/curvenet_api.cpp:573-640 | edges, loops and components of every triangle list: the loops close exactly when the boundary is balanced, and then closed up they are the boundary, edge by edge |
| `MeshTopology.SameWindingDoesNotClose` | guest/curvenet/curvenet_api.cpp:604-608 | two triangles with the same winding on their shared edge leave the boundary unbalanced: a directed edge used twice does break a walk |
| `Weld.NearIsNeighbour` | guest/curvenet/curvenet_api.cpp:539-552 | every point within eps of another lies in one of the 27 cells around it |
| `Weld.FindRep` | guest/curvenet/curvenet_api.cpp:548-562 | the search returns the least hit of the first cell, in scan order, that has one |
| `Weld.FindsNear` | guest/curvenet/curvenet_api.cpp:548-562 | what is found is within eps, whatever the hash collisions |
| `Weld.NoneMeansFar` | guest/curvenet/curvenet_api.cpp:563-567 | a vertex becomes a representative only when no existing one is within eps |
| `Weld.WeldVertices` | guest/curvenet/curvenet_api.cpp:528-571 | the map and representatives are weld's vertex by vertex: every vertex maps to a representative within eps, representatives are vertices pairwise more than eps apart, and eps <= 0 changes nothing |
| `Weld.WeldOfWelds` | guest/curvenet/curvenet_api.cpp:545-569 | the same after any number of vertices |
| `Weld.FirstHitUnique` | guest/curvenet/curvenet_api.cpp:549-562 | what a search finds is determined by the grid and the representatives |
| `Weld.JoinsEarliestExactly` | guest/curvenet/curvenet_api.cpp:525-562 | a vertex joins the first earlier representative within eps if and only if the scan reaches a bucket with it before any other bucket with a hit |
| `Weld.CellOrderDecides` | guest/curvenet/curvenet_api.cpp:525-562 | three vertices under the source's hash of which the third joins a representative that is not the first earlier one within eps |
| `ClothIslands.NumberIslands` | guest/avbd/cloth_grid.cpp:209-220 | islands are numbered densely and two vertices share one exactly when connected |
| `ClothIslands.ConstraintsWhole` | guest/avbd/cloth_grid.cpp:230-256 | every triangle, stencil and attachment has all its vertices in one island |
| `ClothIslands.PartitionIslands` | guest/avbd/cloth_grid.cpp:193-261 | the parts are exactly the connected components, each with its vertices and constraints in their order |
| `ClothIslands.CombineMeshes` | guest/avbd/cloth_grid.cpp:153-178 | the parts appended, indices shifted |
| `ClothIslands.RoundTrip` | guest/avbd/cloth_grid.cpp:153-261 | combining the islands gives the mesh back up to a one-to-one renumbering of its vertices, every constraint renamed by it and kept exactly once |
| `PanelTiles.TileOf` | guest/avbd/cloth_grid.cpp:265-286 | every vertex gets one tile, its band between the extreme coordinates |
| `PanelTiles.Bands` | guest/avbd/cloth_grid.cpp:307-320 | the tiles a constraint has vertices in, each once |
| `PanelTiles.TouchConstraint` | guest/avbd/cloth_grid.cpp:306-326 | every tile a constraint touches takes its foreign vertices as ghosts, once |
| `PanelTiles.TouchAll` | guest/avbd/cloth_grid.cpp:288-332 | owned lists hold the tile's vertices in order and ghost lists what the constraints pull in |
| `PanelTiles.GhostsExact` | guest/avbd/cloth_grid.cpp:306-332 | the ghosts are exactly the foreign vertices of touching constraints |
| `PanelTiles.GlobalIdHolds` | guest/avbd/cloth_grid.cpp:336-352 | a tile lists no vertex twice, owns exactly its vertices, and has every vertex of each touching constraint |
| `PanelTiles.TouchingCovered` | guest/avbd/cloth_grid.cpp:361-393 | localOf is never -1 where a triangle, stencil or attachment uses it |
| `PanelTiles.TileRestores` | guest/avbd/cloth_grid.cpp:334-395 | mapping a tile's constraints back through globalId gives exactly the panel's constraints that touch the tile |
| `PanelTiles.SplitConnectedPanel` | guest/avbd/cloth_grid.cpp:263-397 | the method returns these tiles for every mesh and tile count |
| `MoreThuente.NarrowHolds` | guest/drape/lbfgsb.cpp:421-454 | fiLo never rises, so never above 0; a low trial becomes the lower end with its own value, a high one leaves it |
| `MoreThuente.SearchDecreases` | guest/drape/lbfgsb.cpp:385-468 | every search that stops meets the ftol bound at the point it stops at, ahead of the start when min_step is positive, behind it never when it is not negative; it reports that point's value but for the step_max exit that keeps its trial's |
| `MoreThuente.StepDecreases` | guest/drape/lbfgsb.cpp:342-352 | a point ahead of the start that meets the bound is strictly lower |
| `MoreThuente.SearchSeesTrials` | guest/drape/lbfgsb.cpp:385-468 | the search looks at the objective at its trials only, of which there are at most max_linesearch + 1: an objective alike at those is searched the same way, with the same outcome |
| `MoreThuente.SearchStopsAtWolfe` | guest/drape/lbfgsb.cpp:385-400 | the search stops at the first of its trials that meets the strong Wolfe conditions, if one does, and reports its value |
| `MoreThuente.SearchCleanExactly` | guest/drape/lbfgsb.cpp:419-468 | a search counts as free of cubicMin's error exactly when each of its passes is, and its passes are at its trials, all but perhaps the last |
| `MoreThuente.RestoresOtherExactly` | guest/drape/lbfgsb.cpp:455-458 | exactly when the step_max exit leaves a point and reports the value of another: a trial at step_max that is too high, and a near-quadratic cubic whose mean step is not below it |
| `MoreThuente.PassKeepsProper` | guest/drape/lbfgsb.cpp:419-468 | a pass in which cubicMin makes no error keeps the bracket proper, and takes the step_max exit exactly for a low trial at step_max that still goes down, which it restores |
| `MoreThuente.SearchExact` | guest/drape/lbfgsb.cpp:385-468 | a search in which cubicMin makes no error reports the value of the point it stops at |
| `MoreThuente.LosesStepExactly` | guest/drape/lbfgsb.cpp:538-554 | a pass loses its step exactly when the trial is too high and the cubic's inflection is at step 0 |
| `StepSelection.RootsOf` | guest/drape/lbfgsb.cpp:538-554 | both branches of the root formula give the two roots of the slope |
| `StepSelection.CubicTurns` | guest/drape/lbfgsb.cpp:524-555 | where the slope turns from down to up, cubicMin finds the turn and says so; its step is inside unless the inflection is at 0 |
| `StepSelection.QuadInside` | guest/drape/lbfgsb.cpp:513-517 | quadMin3's point of a trial that is too high lies in the nearer half of the bracket |
| `StepSelection.SecantInside` | guest/drape/lbfgsb.cpp:519-522 | quadMin2's point of opposite slopes lies strictly between |
| `StepSelection.FartherStep` | guest/drape/lbfgsb.cpp:557-573 | for a trial that is too high: the step is lost exactly at an inflection at 0, is between lower end and trial when cubicMin makes no error, and reaches the trial exactly when the bracket overshoots |
| `StepSelection.NearerStep` | guest/drape/lbfgsb.cpp:574-577 | for a low trial that climbs and no error of cubicMin, the step is strictly between |
| `StepSelection.FirstStep` | guest/drape/lbfgsb.cpp:557-573 | from step 0 and up to step 1 even a near-quadratic keeps the step inside |
| `StepSelection.FartherChoice` | guest/drape/lbfgsb.cpp:567-572 | a trial that is too high takes the cubic's step when that is nearer the lower end than the quadratic's, and else their mean |
| `StepSelection.ClimbingChoice` | guest/drape/lbfgsb.cpp:574-577 | a low trial that climbs takes whichever of the cubic's step and the secant's is farther from it |
| `StepSelection.DeepStep` | guest/drape/lbfgsb.cpp:578-590 | for a low trial whose slope keeps its sign the step is an interpolation's, cut at 0.66 of the way from the trial to the upper end |
| `StepSelection.OpenStep` | guest/drape/lbfgsb.cpp:583-585 | without an upper end, and for a slope that does not flatten, the step is 1.1 times the one just made |
| `SearchExamples.ExitKeepsTheTrial` | guest/drape/lbfgsb.cpp:533-537 | a search that stops at its first trial and reports the higher value of its second |
| `SearchExamples.InflectionLosesTheSearch` | guest/drape/lbfgsb.cpp:538-554 | the objective 3/2 x^3 - x on which the first pass loses its step |
| `SearchExamples.NegativeStepIncreases` | guest/drape/lbfgsb.cpp:459-462 | for every negative min_step a search that ends behind its start at a higher value |
| `LbfgsbDriver.Opened` | guest/drape/lbfgsb.cpp:346-363 | the first trial starts the direct-style search |
| `LbfgsbDriver.Evaluate` | guest/drape/lbfgsb.cpp:216-225 | after an evaluation the difference vectors, products and projected-gradient norm belong to the trial |
| `LbfgsbDriver.NextTrial` | guest/drape/lbfgsb.cpp:419-468 | a pass that goes on resumes the direct-style search at the next trial, with lo_ naming the buffer that holds the lower end |
| `LbfgsbDriver.RestoreAtStepMax` | guest/drape/lbfgsb.cpp:455-458 | at the step_max exit lo_ still names where the point at step iLo_ is, the start or the current point included |
| `LbfgsbDriver.RestoreAtEnd` | guest/drape/lbfgsb.cpp:411-414 | the same when the passes run out |
| `LbfgsbDriver.RestoredFrom` | guest/drape/lbfgsb.cpp:470-481 | after RESTORE the point, gradient, difference vectors and norm are those of the lower end |
| `LbfgsbDriver.SettledDecreases` | guest/drape/lbfgsb.h:40-43 | an accepted point meets the ftol bound; it is not above its start when min_step is not negative and strictly below when it is positive; the reported value is its own when no pass made an error |
| `LbfgsbDriver.SettledImproves` | guest/drape/lbfgsb.cpp:483-508 | an accepted point is strictly below the value reported for the point its search started from, and below that point itself when that one was found without an error |
| `LbfgsbDriver.TrailGrows` | guest/drape/lbfgsb.cpp:226-228 | going on from an accepted point keeps the trail of starting points descending |
| `LbfgsbDriver.TrailDescends` | guest/drape/lbfgsb.cpp:199-305 | over a run, points found without an error are strictly lower than all before them |
| `LbfgsbDriver.Lbfgsb.Start` | guest/drape/lbfgsb.cpp:160-197 | Busy exactly for valid parameters, bounds and backend, with x0 forced into the box |
| `LbfgsbDriver.Lbfgsb.Next` | guest/drape/lbfgsb.cpp:199-305 | every call keeps the invariant: whenever a search accepts, x is where the direct-style search stops, in the box, SV, YV and the stored norm belong to it, and it improves on the trail; the trail grows by the accepted point when the caller goes on and never otherwise changes; a direction in flight, or searched along, is the subspace point of the Cauchy point at x under the memory in the buffers, the first one is towards the Cauchy point, and after a pathological reset it is xcp - x with the memory reset; going on from an accepted point stores its SV and YV in the memory the direction is taken under |
| `LbfgsbDriver.Lbfgsb.Direction` | guest/drape/lbfgsb.cpp:307-326 | from an accepted point the memory takes its products and then SV and YV, after a failed factorisation it is reset and the iteration count kept; either way xcp is the Cauchy point at x under that memory, d the subspace point from it and dcp = xcp - x |
| `LbfgsbDriver.Lbfgsb.NextDirected` | guest/drape/lbfgsb.cpp:258-283 | after a direction phase: a failed factorisation resets the memory and redoes the direction; otherwise the search opens along the direction in d, or, once, along xcp - x with the memory reset |
| `LbfgsbDriver.Lbfgsb.LineSearchStart` | guest/drape/lbfgsb.cpp:328-364 | resets a pathological direction once, to xcp - x with the memory reset, otherwise opens a search along d or fails |
| `LbfgsbDriver.Lbfgsb.AfterEval` | guest/drape/lbfgsb.cpp:385-417 | accepts, restores, goes on or fails exactly as the direct-style search does |
| `LbfgsbDriver.Lbfgsb.OutOfPasses` | guest/drape/lbfgsb.cpp:402-415 | out of passes: the last step if it beats the lower end, else the lower end or a failure |
| `LbfgsbDriver.Lbfgsb.BodyA` | guest/drape/lbfgsb.cpp:419-468 | one pass keeps the search's invariant or ends it |
| `LbfgsbDriver.Lbfgsb.RestoreLo` | guest/drape/lbfgsb.cpp:470-481 | a copy and another phase exactly when the lower end is not the current point and the backend runs it; nothing moves otherwise |
| `LbfgsbDriver.Lbfgsb.AcceptPoint` | guest/drape/lbfgsb.cpp:483-508 | converges exactly by the gradient test, relative or absolute, the delta test or the iteration cap, in that order, and otherwise hands the point out with the history updated |
| `VecPhases.AcceptedIsUnclashed` | guest/drape/vec_rd.cpp:293-301 | a phase that passes the dynamic-site check clashes nowhere, when only saxpby is dynamic and no dynamic coefficient is a negative zero |
| `VecPhases.ZeroSignsClash` | guest/drape/vec_rd.cpp:293-301 | the check alone is not enough: +0 and -0 compare equal and are different words |
| `VecPhases.DescribeIsCpu` | guest/drape/vec_rd.cpp:46-113 | the GPU's table is the CPU backend's switch (vec_cpu.cpp:105-241): the same kernel, the same buffer under every name, the same params, and workgroups that cover the threads with less than one to spare, or one for each thread of a serial form |
| `VecRdBackend.RightUnlessClashed` | guest/drape/vec_rd.cpp:259-376 | every dispatch runs its op's block of the CPU backend, its params included, if and only if no dynamic site is asked for two different blocks |
| `VecRdBackend.ListingSeparated` | guest/drape/vec_rd.cpp:359-371 | a barrier stands between any two dispatches |
| `VecRdBackend.PhaseRefinesCpu` | guest/drape/vec_cpu.cpp:105-241 | a phase whose dispatches run their ops' blocks leaves what the CPU backend's loop over its switch leaves, for any kernels that do the same on both sides |
| `VecRdBackend.VecRd.FreeSites` | guest/drape/vec_rd.cpp:163-179 | every site's set and block is released and the sites forgotten |
| `VecRdBackend.VecRd.Setup` | guest/drape/vec_rd.cpp:191-217 | new distinct buffers, no site naming an old one, whatever ran before; a buffer that cannot be made leaves those before it and none from there on |
| `VecRdBackend.VecRd.Plan` | guest/drape/vec_rd.cpp:277-353 | the op's site holds its words; other sites and static sites are unchanged; a failure changes no site, block or set |
| `VecRdBackend.VecRd.MakeSite` | guest/drape/vec_rd.cpp:308-344 | a site is made exactly when its block and set can be and its buffers exist; otherwise the block goes again |
| `VecRdBackend.VecRd.Run` | guest/drape/vec_rd.cpp:259-376 | with every buffer there and a device that works, accepts exactly the phases that pass the check, across any history; then every dispatch is right if and only if the phase is unclashed, and right means the op's own kernel, buffers, params and enough workgroups for its threads on the CPU |
| `VecRdBackend.VecRd.Record` | guest/drape/vec_rd.cpp:354-373 | the second pass records the planned sites in order |
| `FrameSchedule.Session.Touch` | guest/avbd/avbd_rd.cpp:934-940 | a readback or upload waits out an earlier frame's submit only |
| `FrameSchedule.Session.Launch` | guest/rd_compute.cpp:543-560 | a launch waits out an earlier frame's submit and submits once |
| `FrameSchedule.Session.Advance` | guest/drape/drape_sim.h:323-334 | one phase of a step submits exactly once, or completes with nothing in flight |
| `FrameSchedule.Session.ReadScanned` | guest/drape/drape_sim.h:501-533 | another scan exactly while vertices are pushed and passes are left |
| `FrameSchedule.Session.ForwardStage` | guest/drape/drape_session.h:194-210 | re-queues itself in front exactly while steps remain; when it is over it has made exactly the steps asked for |
| `FrameSchedule.Session.FitStage` | guest/drape/drape_session.h:281-320 | its stiffness uploads never follow a launch in the same frame; a step that converges starts the settle if and only if there is one, and otherwise the count falls with the steps alone |
| `FrameSchedule.Session.NativeLaunch` | guest/drape/drape_backward.h:260-292 | submits one step's adjoint, or is done |
| `FrameSchedule.Session.NativeCollect` | guest/drape/drape_backward.h:294-325 | reads the step back, then launches the one before it or is done; done, it has gone back over all steps or as many as the sweep is cut to |
| `FrameSchedule.Session.RecomputeBegin` | guest/drape/drape_backward.h:380-462 | starts recomputing a step with one submit, with snapshots exactly when it is unrolled over more than one iteration, or is done |
| `FrameSchedule.Session.Snapshot` | guest/drape/drape_backward.h:464-480 | another forward iteration exactly while one before the last is left, else the unrolled sweep from the last iteration; one submit either way |
| `FrameSchedule.Session.RecomputeCollect` | guest/drape/drape_backward.h:497-568 | the iteration before exactly when an unrolled step has one left, else the step is over, after 2 * iters - 1 submits if unrolled, and the step before it starts or the sweep is done, having gone back over its whole length |
| `FrameSchedule.Session.AdvanceBwd` | guest/drape/drape_backward.h:132-143 | one phase of the backward submits at most once and syncs nothing of its own frame |
| `FrameSchedule.Session.BackwardStage` | guest/drape/drape_session.h:371-382 | re-queues itself in front exactly until done |
| `FrameSchedule.Session.RunStage` | guest/drape/drape_session.h:178-385 | what each stage does and re-queues: a forward of n sets the count to n and, over its stages, makes n steps; a backward starts only between steps and ends having gone back over its sweep's length |
| `FrameSchedule.Session.Next` | guest/jobs.cpp:10-19 | from a running stage, after it and before the rest; outside one, the front |
| `FrameSchedule.Session.RunFirst` | guest/jobs.cpp:27-36 | the front stage is replaced by what it queued |
| `FrameSchedule.Session.Tick` | guest/jobs.cpp:21-42 | a tick of a later frame makes no same-frame sync, at most one submit, and stops after the stage that submits |
| `FrameSchedule.Session.Frames` | guest/rd_compute.cpp:552-560 | over any number of frames with at most one tick each, and any stages pushed, the host's own reading back before they launch once, same_frame_syncs_ never grows and submits are at most one a frame |
| `DeviceTransfers.PieceStages` | guest/rd_compute.cpp:391-398 | each piece of a staged read is within the staging buffer, and copyable whenever the whole read is stageable |
| `DeviceTransfers.StagedIsStageable` | guest/rd_compute.cpp:390-410 | a read that went through had its last word in the buffer and a staging buffer of whole words or as long as the read |
| `DeviceTransfers.OddCapRefuses` | guest/rd_compute.cpp:391-398 | a staging buffer that is not whole words refuses every longer read at its first piece |
| `DeviceTransfers.Device.RidOrFail` | guest/rd_compute.cpp:192-211 | a handle takes one permanent slot and the counter counts the slots held |
| `DeviceTransfers.Device.Forget` | guest/rd_compute.cpp:213-221 | a permanent slot is given back once |
| `DeviceTransfers.Device.FreeRid` | guest/rd_compute.cpp:450-457 | the buffer and its slot go, nothing else does |
| `DeviceTransfers.Device.StorageBufferEmpty` | guest/rd_compute.cpp:327-335 | whole words, cleared or not made; a failure holds no slot |
| `DeviceTransfers.Device.StorageBuffer` | guest/rd_compute.cpp:308-320 | the given bytes or zeros for every size, in one transfer or many; a failure holds no slot |
| `DeviceTransfers.Device.BufferUpdate` | guest/rd_compute.cpp:342-358 | pieces of at most 16 MiB write exactly the data, succeed exactly when it fits, and a failure leaves whole pieces before it |
| `DeviceTransfers.Device.GrowStaging` | guest/rd_compute.cpp:375-388 | the staging buffer grows to the read up to the cap, is never shrunk, and no other buffer changes |
| `DeviceTransfers.Device.BufferGetInto` | guest/rd_compute.cpp:367-412 | the bytes read are exactly those asked for, every other buffer is unchanged, a submitted device refuses, and a working device succeeds exactly when the read is stageable |
| `DeviceTransfers.Device.Close` | guest/rd_compute.cpp:260-278 | the staging buffer's slot is given back |

## Left out

- Kernel bodies and generated shaders: a kernel is a function of its declared footprint; the footprints in `AvbdKernels` are the buffers each dispatch binds, those declared read-only in `kernels/avbd/slang` as loads and the others as stores, which a kernel may also read.
- Floating point: geometry, the line search and the vectors are over the reals, so rounding, NaN and infinities other than the bracket's are not modelled.
- Integer widths: `uint32_t` and `uint64_t` counts are unbounded; byte ranges do not wrap.
- RdGraph.GraphCompute: pipelines, params upload and set creation are assumed to succeed (`SetCache` models their failure); the CPU fallback is the in-order semantics itself, without its yields.
- Fault injection, dropped barriers, debug stops, profiling, timestamps and statistics.
- SetCache: pipelines and `release_kernels`; a set's layout is one and the same shader.
- DeviceTransfers.Device.RidOrFail: the gate hook that turns permanent handles off.
- DeviceTransfers: opening and adopting a device, shaders, pipelines and uniform sets; `buffer_get`, which returns what the engine gives.
- AvbdRecord: the uniform-set cache keyed by kernel and colour, and failures while recording; a kernel's params are part of its site.
- AvbdRecord.BackwardIsCpu: the CPU solver's rows are three floats for four, it scatters through the identity permutation for `vertPerm`, and it adds to its gradient in place; `AvbdCpuOrder.OnRd` is that renaming, and that a permutation of all vertices scatters like the identity is not part of the model.
- LazyDuals: a second `setupMesh` over constraints uploaded before; rest-state and stiffness updates, which touch no dual.
- AvbdCpuSolver.AvbdCpu.Upload: parameter arrays are part of the fixed physics; the dual and penalty updates are not part of the sweep.
- AvbdCpuSolver.AvbdCpu.Step: the pre-step copies of the duals are in `LazyDuals`; this step over values and the dispatch list `AvbdRecord.CpuRun` are two views of the same source, not connected by a theorem.
- Blake3Stream.Ctx.Update: messages up to 2^64 bytes; `compress` is any function to sixteen words.
- BodyMeshQuery.BodyMesh.BuildNode: `std::nth_element` is any permutation of its range; that the split is at the median of the axis along which the centroids spread most is not needed by the query.
- BodyMeshQuery.BodyMesh.Closest: at most 2^32 triangles; pseudo-normals and the signed side are not modelled beyond the region that picks them.
- StepSelection: square roots are exact and the tolerance is the only trace of rounding; in a bracket that an error of cubicMin has already spoiled, a division by zero is not a number rather than an infinity.
- LbfgsbDriver.Lbfgsb.BodyA: a trial step that is not a number ends the search with a failure in the model; the code asks for an evaluation there.
- LbfgsbDriver: parsing and printing of parameters; the compact-form kernels are arbitrary.
- VecPhases.DescribeIsCpu: the parallel reductions and their serial forms on the CPU are taken to compute the same.
- VecPhases: the df32 pairs of accumulated sums; buffers' word counts.
- `curvenet`: `build_mesh`, the remesh and patch attribution around `weld` and `topology`.
- ClothIslands.PartitionIslands: `faces` lists, which copy the triangles' indices, and grid sizes are not part of the model.
- ClothIslands.CombineMeshes: `faces` lists and grid sizes, as above.
- ClothIslands.RoundTrip: says nothing of `faces`, which come back as the triangles' indices.
- `cloth_grid`: building a grid mesh and its weights; per-constraint data is carried as one value.
- FrameSchedule: failures, the verdict text and `drain` of a job, and several users of one device; fit targets and rest metrics are Boolean answers.
- The Godot calls, the coroutine library, entry points, and the fit and CASSIE drivers.
