# projekto chunk pipeline in Dafny

A Dafny model of the chunk lifecycle and meshing pipeline of the projekto voxel engine. It covers four parts:

- **Coordinate and index math** (`math.dfy`, `chunk.dfy`): packing a local voxel coordinate into a buffer index (x in bits 8-11, z in bits 4-7, y in bits 0-3) and unpacking it, the chunk bounds check, chunk/world scaling, the Euclidean remainder and the smallest-axis rule.
- **The dense chunk buffer** (`Chunks.Chunk`): 4096 kinds in an array, all zero by default, read and written in place by local coordinate.
- **Landscaping** (`landscaping.dfy`):
  - the two-way order-preserving difference `disjoin`;
  - the landscape tick with its pending-load set, which turns the observer's position and the entity map's keys into load and unload commands;
  - the spawn, despawn and update systems, which keep the coordinate-to-entity map and emit dirty events.
- **Meshing** (`rendering.dfy`): the five stages run over a batch of dirty events.
  - Faces occlusion works in place on a 4096 × 6 flag buffer.
  - Faces merging replaces the faces with those of an abstract merge.
  - Vertex expansion, mesh generation and clean-up.
  - All five stages share one skip-on-missing policy.

The ECS is modelled explicitly:

- `Registry.ChunkEntityMap` holds a `map` from chunk coordinates to entries. Each entry carries the entity's components.
- The building bundle (occlusion buffer, faces, vertices) is an `Option`, because the three components are only ever inserted or removed together.
- Event queues are sequences.
- The voxel world is a `map` from coordinates to `Chunk` objects.

What `voxel.rs`, `mesh.rs`, `landscape.rs` and `query.rs` provide is passed in as parameters: the side directions, the mesh tables, `merge_faces`, `compute_indices`, `range`, `BEGIN` and `END`. The side-direction and mesh-table parameters carry only the shape their callers rely on (`voxel.dfy`).

Each rendering system is a `for` loop with `continue`. Its loop invariant ties the entity map to `Rendering.Batch`, a fold of one per-stage `Step` over the events processed so far. `Rendering.BatchAt` then says what every entry becomes. The landscape tick is proved equal to `Landscaping.Tick`, for the order in which the hash map yields its keys.

Behaviour of the code worth knowing:

- `update_landscape_system` recomputes on every run of its fixed 0.1 s timestep.
- Its `last_pos` update is `if center == last_pos { last_pos = center }` (`src/world/pipeline/landscaping.rs:90-92`), so `last_pos` never changes. `UpdateLandscapeSystem` states this.
- A load of an already mapped coordinate is not rejected: `spawn_chunks_system` replaces the entry.
- `min_element` answers Z for every tie, even a tie of x and y below |z|.

## Model

| member | source | states |
|---|---|---|
| Math.IsWithinCubicBounds | src/world/math.rs:3-5 | holds iff every component lies in `[min, max]` (min and max of the components, both directions) |
| Math.Floor | src/world/math.rs:7-13 | each component is floored and cast with `i32` saturation; where the floor fits in `i32` it is `r <= c < r + 1` |
| Math.EuclidRem | src/world/math.rs:15-21 | for `div != 0`, each component lies in `[0, |div|)` and differs from the input by the Euclidean quotient times `div` |
| Math.EuclidRemKeepsReduced | src/world/math.rs:15-21 | a vector whose components are already in `[0, |div|)` is returned unchanged |
| Math.MinElement | src/world/math.rs:29-38 | X iff |x| is strictly below |y| and |z|; Y iff |y| is strictly below |x| and |z|; otherwise Z |
| Math.MinElementStrictMinimum | src/world/math.rs:29-38 | an axis whose magnitude is strictly smallest is the one returned |
| Math.MinElementTiesYieldZ | src/world/math.rs:36-38 | every tie at the minimum, all three equal included, yields Z |
| Math.MinElementTieBelowZ | src/world/math.rs:32-38 | (1, -1, 5) yields Z although |z| is the largest magnitude |
| Chunks.IsWithinBounds | src/world/storage/chunk.rs:54-56 | `is_within_bounds(p)` iff every component lies in `[0, 15]` |
| Chunks.ToXyz | src/world/storage/chunk.rs:41-47 | unpacking any index yields a coordinate inside the chunk |
| Chunks.ToIndex | src/world/storage/chunk.rs:49-52 | a coordinate inside the chunk packs to an index below `BUFFER_SIZE` (4096) |
| Chunks.LocalRoundTrip | src/world/storage/chunk.rs:41-52 | `to_xyz(to_index(p)) == p` for every p in `[0,15]^3` |
| Chunks.IndexRoundTrip | src/world/storage/chunk.rs:41-52 | `to_index(to_xyz(i)) == i` for every `i < 4096` |
| Chunks.ToIndexInjective | src/world/storage/chunk.rs:49-52 | two coordinates inside the chunk with one index are equal |
| Chunks.ToIndexSurjective | src/world/storage/chunk.rs:49-52 | every index below 4096 is the index of some coordinate inside the chunk |
| Chunks.ToIndexStrides | src/world/storage/chunk.rs:112-147 | a step in y adds 1, in z adds 16, in x adds 256 |
| Chunks.ToXyzExamples | src/world/storage/chunk.rs:75-110 | the twelve unpacking test vectors |
| Chunks.ToIndexOrigin | src/world/storage/chunk.rs:114 | the origin packs to 0 |
| Chunks.ToIndexExamplesY | src/world/storage/chunk.rs:115-116 | the y test vectors |
| Chunks.ToIndexExamplesZ | src/world/storage/chunk.rs:118-120 | the z test vectors |
| Chunks.ToIndexExamplesX1 | src/world/storage/chunk.rs:122-147 | the x = 1 test vectors |
| Chunks.ToIndexBits | src/world/storage/chunk.rs:49-52 | `to_index` written with the source's shifts and OR on 12-bit words; `ToIndexBitsAgree` ties it to `ToIndex` |
| Chunks.ToXyzBits | src/world/storage/chunk.rs:41-47 | `to_xyz` written with the source's masks and shifts on 12-bit words; `ToXyzBitsAgree` ties it to `ToXyz` |
| Chunks.ToIndexBitsAgree | src/world/storage/chunk.rs:11-52 | on `[0,15]^3` the shift-and-OR packing on 12-bit words equals `256x + 16z + y` |
| Chunks.ToXyzBitsAgree | src/world/storage/chunk.rs:11-47 | for every 12-bit index the mask-and-shift unpacking equals the arithmetic `ToXyz` |
| Chunks.ToIndexBitsOverlapOutside | src/world/storage/chunk.rs:49-52 | outside the chunk the fields overlap: (0, 16, 0) packs like (0, 0, 1) |
| Chunks.ToWorld | src/world/storage/chunk.rs:58-60 | the world-space origin of a chunk, each coordinate times 16; `ToLocalOfToWorld` and `ToLocalOfOffset` tie it to `to_local` |
| Chunks.ChunkAxis | src/world/storage/chunk.rs:62-68 | one axis of `to_local`: where it fits in `i32`, the chunk's cell `[16b, 16(b+1))` contains the coordinate |
| Chunks.ToLocal | src/world/storage/chunk.rs:62-68 | on each unsaturated axis, `to_world(to_local(w)) <= w < to_world(to_local(w)) + 16` |
| Chunks.ToLocalOfOffset | src/world/storage/chunk.rs:186-213 | `to_local(to_world(b) + f) == b` whenever `0 <= f < 16` on each axis |
| Chunks.ToLocalOfToWorld | src/world/storage/chunk.rs:58-68 | `to_local(to_world(b)) == b`, i.e. `to_world` scales by 16 onto the chunk's origin |
| Chunks.ToLocalExamples | src/world/storage/chunk.rs:173-184 | the three fixed test vectors, negative coordinates floored |
| Chunks.KindAt | src/world/storage/chunk.rs:36-38 | the kind of a coordinate inside the chunk, `voxel_kind[to_index(local)]` on the contents as a value |
| Chunks.SetKind | src/world/storage/chunk.rs:32-34 | the kind read back at the written coordinate is the one written; every other voxel is unchanged |
| Chunks.EmptyKinds | src/world/storage/chunk.rs:23-29 | the default contents have kind 0 at every coordinate |
| Chunks.Chunk.constructor | src/world/storage/chunk.rs:23-29 | a new chunk has a fresh buffer of 4096 zeros |
| Chunks.Chunk.GetVoxelKind | src/world/storage/chunk.rs:36-38 | reads the kind stored for the coordinate |
| Chunks.Chunk.SetVoxelKind | src/world/storage/chunk.rs:32-34 | writes in place; the written voxel reads back the kind, every other voxel keeps its kind |
| Sequences.FilterContents | src/world/pipeline/landscaping.rs:129-132 | filtering by membership keeps exactly the selected elements, with their multiplicity and in order, and keeps a duplicate-free input duplicate-free |
| Sequences.FilterSnoc | src/world/pipeline/landscaping.rs:190-200 | filtering a sequence extended by one element extends the result by that element if it is selected |
| Landscaping.Disjoin | src/world/pipeline/landscaping.rs:122-133 | first output: exactly the elements of a not in b; second: of b not in a; each a subsequence of its input with full multiplicity; common elements in neither |
| Landscaping.DisjoinExample | src/world/pipeline/landscaping.rs:215-237 | the unit test's vectors give `[222, 333]` and `[223, 334]` |
| Landscaping.RequestLoads | src/world/pipeline/landscaping.rs:108-115 | a coordinate is loaded iff it is to be added and not pending; the new pending set is the old one plus the loads; no load twice |
| Landscaping.Tick | src/world/pipeline/landscaping.rs:96-119 | one run with its observer: a load is sent iff the coordinate is visible, unmapped and either not pending or loaded in this run, none twice; pending afterwards is (pending less this run's loaded) plus this run's loads; an unload is sent iff the coordinate is mapped and not visible, with no pending filter, once per key |
| Landscaping.NoRepeatWhilePending | src/world/pipeline/landscaping.rs:104-115 | a coordinate requested in one run is not requested in the next unless its loaded event arrives |
| Landscaping.StuckWhileLoadedMissed | src/world/pipeline/landscaping.rs:104-115 | a pending coordinate whose loaded event never reaches the tick stays pending and is never requested again, over any number of runs |
| Landscaping.Visible | src/world/pipeline/landscaping.rs:85-99 | the range from `center + BEGIN` to `center + END` around the observer's chunk `to_local(translation)` |
| Landscaping.CollectKeys | src/world/pipeline/landscaping.rs:100 | the keys of the map, each once, in an order the map chooses |
| Landscaping.Landscape.constructor | src/world/pipeline/landscaping.rs:78-81 | the system's locals start at their defaults: no pending loads, `last_pos` the origin |
| Landscaping.Landscape.UpdateLandscapeSystem | src/world/pipeline/landscaping.rs:74-120 | without exactly one observer nothing is sent and the pending set is kept; otherwise the sent loads, unloads and the new pending set are `Tick` for the map's key order; `last_pos` never changes |
| Landscaping.Landscape.ForgetLoaded | src/world/pipeline/landscaping.rs:104-106 | each loaded coordinate leaves the pending set |
| Landscaping.Landscape.RequestMissing | src/world/pipeline/landscaping.rs:108-115 | sends and records exactly `RequestLoads` |
| Landscaping.Landscape.SendUnloads | src/world/pipeline/landscaping.rs:117-119 | the `for` over `to_remove` with `send`: one unload per coordinate, in order |
| Registry.SpawnedEntry | src/world/pipeline/landscaping.rs:147-158 | the entity spawned for a loaded coordinate: its `ChunkLocal`, translation `to_world(local)`, a default building bundle and no mesh |
| Registry.DefaultBuilding | src/world/pipeline/mod.rs:110-117 | the default building bundle: no side of any voxel occluded, no faces, no vertices |
| Registry.ChunkEntityMap.constructor | src/world/pipeline/mod.rs:75 | the coordinate-to-entity map resource starts empty |
| Landscaping.SpawnChunksSystem | src/world/pipeline/landscaping.rs:135-163 | every loaded coordinate is mapped to a fresh entry and gets exactly one dirty event, in event order |
| Landscaping.SpawnedAt | src/world/pipeline/landscaping.rs:143-162 | after spawning, the keys are the old keys plus the loaded ones; a loaded coordinate holds a new entity at `to_world` with a default building bundle and no mesh; others are unchanged |
| Landscaping.SpawnExample | src/world/pipeline/landscaping.rs:239-270 | one loaded event on an empty map yields exactly one mapped coordinate |
| Landscaping.DespawnChunksSystem | src/world/pipeline/landscaping.rs:165-180 | the map loses exactly the unloaded coordinates that it held; other keys and entries are unchanged |
| Landscaping.DespawnExample | src/world/pipeline/landscaping.rs:272-303 | unloading the only mapped coordinate empties the map |
| Landscaping.Rebuilt | src/world/pipeline/landscaping.rs:195-197 | `insert_bundle(ChunkBuildingBundle::default())` on one entity: the building bundle replaced by the default one |
| Landscaping.RebuildAll | src/world/pipeline/landscaping.rs:190-200 | rebuilding keeps the set of mapped coordinates |
| Landscaping.UpdateChunksSystem | src/world/pipeline/landscaping.rs:182-201 | mapped updated coordinates get a default building bundle; dirty holds exactly the updated coordinates already mapped, in event order |
| Landscaping.RebuildAllAt | src/world/pipeline/landscaping.rs:190-200 | only the building bundle of an updated mapped coordinate changes, to the default; local, translation and mesh are kept |
| Landscaping.UpdateExample | src/world/pipeline/landscaping.rs:305-339 | an update of the mapped (1,2,3) emits its dirty event |
| Rendering.SideOccluded | src/world/pipeline/rendering.rs:105-117 | a side is occluded iff the neighbour in its direction is inside the chunk and has kind exactly 1 |
| Rendering.VoxelOcclusion | src/world/pipeline/rendering.rs:97-117 | a voxel's six flags: all set when it is empty, else `SideOccluded` per side |
| Rendering.Occlusion | src/world/pipeline/rendering.rs:95-118 | the buffer whose slot `i` holds the flags of voxel `to_xyz(i)`; pinned by `OcclusionAt` and the lemmas after it |
| Rendering.ComputeFacesOcclusion | src/world/pipeline/rendering.rs:95-118 | in place, the buffer becomes `Occlusion` of the chunk's contents, whatever it held before |
| Rendering.OcclusionAt | src/world/pipeline/rendering.rs:97-98 | the slot `to_index(v)` holds voxel v's flags |
| Rendering.EmptyVoxelOccluded | src/world/pipeline/rendering.rs:100-103 | a kind-0 voxel has all six flags set |
| Rendering.SolidSideOccludedIff | src/world/pipeline/rendering.rs:105-117 | for a non-empty voxel, side s is set iff the neighbour in direction s is inside the chunk and has kind exactly 1 |
| Rendering.BoundarySideUnoccluded | src/world/pipeline/rendering.rs:109-112 | for a non-empty voxel a side whose neighbour is outside `[0,15]^3` stays unset |
| Rendering.EmptyChunkFullyOccluded | src/world/pipeline/rendering.rs:296-343 | an all-empty chunk is fully occluded |
| Rendering.TestChunkBuilt | src/world/pipeline/rendering.rs:356-368 | the test's nine `set_kind` calls give kind 1 exactly at the nine listed voxels |
| Rendering.TopBottomExampleUpper | src/world/pipeline/rendering.rs:399-405 | the upper of the stacked pair has only side 3 set |
| Rendering.TopBottomExampleLower | src/world/pipeline/rendering.rs:407-413 | the lower of the stacked pair has only side 2 set |
| Rendering.SurroundedExample | src/world/pipeline/rendering.rs:415-421 | a voxel surrounded by kind-1 voxels has all flags set |
| Rendering.CornerVertex | src/world/pipeline/rendering.rs:155-163 | one face corner's vertex: the side's cube corner plus the corner's offset, with the side's normal |
| Rendering.Vertices | src/world/pipeline/rendering.rs:152-165 | the vertex list of the faces, four per face, face by face and corner by corner |
| Rendering.VerticesAt | src/world/pipeline/rendering.rs:152-165 | four vertices per face; vertex k is corner k mod 4 of face k div 4 (cube corner plus offset) with that face's side normal |
| Rendering.ComputeVertices | src/world/pipeline/rendering.rs:152-165 | the cleared-then-pushed list equals `Vertices` of the faces |
| Rendering.MeshOf | src/world/pipeline/rendering.rs:201-213 | one position and one normal per vertex, in vertex order, and the indices of `compute_indices(len)` |
| Rendering.BuildMesh | src/world/pipeline/rendering.rs:201-213 | positions and normals copied in vertex order, one per vertex; indices from `compute_indices(len)` |
| Rendering.Ready | src/world/pipeline/rendering.rs:53-286 | the skip conditions: occlusion and merging need the chunk in the world and the building bundle, vertices and mesh the bundle, clean-up only the mapping |
| Rendering.Apply | src/world/pipeline/rendering.rs:95-285 | no stage changes the coordinate or translation; only mesh generation touches the mesh and keeps the bundle; the bundle is gone iff the stage is clean-up |
| Rendering.Step | src/world/pipeline/rendering.rs:53-286 | one dirty event: the mapped coordinates are kept, every other entry is unchanged, and a stage that is not ready leaves the entry alone |
| Rendering.Batch | src/world/pipeline/rendering.rs:53-286 | a stage over the dirty events, one `Step` after another; the mapped coordinates are kept |
| Rendering.ApplyIdempotent | src/world/pipeline/rendering.rs:53-286 | every stage stays ready after processing an entry and processing it again changes nothing |
| Rendering.BatchAt | src/world/pipeline/rendering.rs:53-286 | an entry is processed iff its coordinate is in the batch and the stage finds what it needs; otherwise it is unchanged and the rest of the batch still runs |
| Rendering.BatchIdempotent | src/world/pipeline/rendering.rs:53-286 | running any stage twice over the same batch gives the same entity map as running it once |
| Rendering.CleanUpExample | src/world/pipeline/rendering.rs:528-560 | clean-up removes the building bundle of the mapped (1,2,3) |
| Rendering.Snapshot | src/world/pipeline/rendering.rs:54-60 | the voxel world read as contents keeps its coordinates |
| Rendering.FacesOcclusionSystem | src/world/pipeline/rendering.rs:53-120 | the entity map becomes the occlusion stage's `Batch` over the dirty events |
| Rendering.FacesMergingSystem | src/world/pipeline/rendering.rs:246-286 | the entity map becomes the merging stage's `Batch`: faces replaced wholesale by the merge of buffer and chunk |
| Rendering.VerticesComputationSystem | src/world/pipeline/rendering.rs:122-167 | the entity map becomes the vertex stage's `Batch` |
| Rendering.MeshGenerationSystem | src/world/pipeline/rendering.rs:169-219 | the entity map becomes the mesh stage's `Batch`: mesh replaced by one built from the vertices |
| Rendering.CleanUpSystem | src/world/pipeline/rendering.rs:221-244 | the entity map becomes the clean-up stage's `Batch`: the bundle is removed for every mapped dirty coordinate |
| Rendering.Rebuild | src/world/pipeline/rendering.rs:22-50 | the plugin's order: occlusion, merging, vertices, mesh generation, clean-up, each over the same dirty batch |
| Rendering.RebuildComplete | src/world/pipeline/rendering.rs:22-50 | after the five stages in order, a dirty chunk present in the world with a building bundle holds the mesh of the merged occlusion of its contents, and no building bundle |
| Rendering.RebuildStaleFaces | src/world/pipeline/rendering.rs:246-286 | a dirty chunk missing from the world gets a mesh of its old faces |
| Rendering.RebuildElsewhere | src/world/pipeline/rendering.rs:22-50 | the mapped coordinates never change; entries not in the batch, or without a building bundle, are untouched |
| Rendering.RebuildSteps | src/world/pipeline/rendering.rs:22-50 | each entry goes through the stages one after the other, each applied when ready |

## Left out

- Bevy glue: plugin wiring, `setup_resources` (shader and pipeline assets), the `FixedTimestep` run criterion, the `perf_fn!`/`trace_system_run!` macros and the `warn!`/`trace!` logging. None of it changes model state.
- The mesh asset: `Mesh::new`, `set_attribute` and `Assets::add` are a foreign call. The entry holds the mesh value itself rather than a handle.
- ECS deferral: `Commands` (spawn, insert and remove bundle, `despawn_recursive`) are applied immediately. Every command queued in a stage is applied before the next stage reads its result.
- A loaded coordinate that is already mapped replaces its entry. The old entity stays alive in the source but is unreachable from the map, so it is not modelled.
- Bevy events live for two frames. A reader that does not run in that window, such as the timestep-gated landscape tick, misses them. The model passes each system exactly its batch of events and leaves open which events the tick sees. Its consequence is stated as `StuckWhileLoadedMissed`: a coordinate whose loaded event the tick misses stays in `req_add`, so if it is later unloaded and comes back into view it is never requested again.
- `voxel::get_side_dir`, `get_side_normal`, `mesh::VERTICES`, `VERTICES_INDICES`, `merge_faces`, `compute_indices`, `query::range`, `landscape::BEGIN` and `END` are defined outside the modelled files (`voxel.rs`, `mesh.rs`, `query.rs`, `landscape.rs`), so they are parameters. The side directions are fixed only to the extent the tests fix them: 2 up, 3 down, and the other four horizontal. The mesh tables are shaped as the vertex loop indexes them.
- `chunk::voxels()` is not modelled; the occlusion kernel visits the voxels in index order, and each voxel writes only its own slot, so the order does not affect the result.
- The voxel world storage (`VoxWorld::add`, `get`, `get_mut`) is a read-only map from coordinates to chunks.
- Floats are reals: `to_world`, `to_local`, `floor`, `abs` and the vertex positions have no IEEE-754 rounding. Only the saturating `f32 as i32` cast is modelled.
- `voxel::Kind` is an unbounded integer.
- ToIndex: requires a coordinate inside the chunk, the callers' obligation. Outside it, the source's overlapping OR yields another voxel's index or an index past the buffer; `ToIndexBitsOverlapOutside` shows one case.
- EuclidRem: integers are unbounded, so the `i32` overflow of `i32::MIN.rem_euclid(-1)` is not modelled. A zero divisor, which panics, is excluded by the precondition.
- `i32` wrap-around in `IVec3` additions (`center + splat(BEGIN)`, `voxel + dir`) is not modelled.
- RequestLoads: its contract states membership, duplicate-freedom and the new pending set, not the order of the loads. The order is fixed by its definition, which follows `to_add`.
- Landscaping.Landscape.UpdateLandscapeSystem: the unloads come in the hash map's key order, which the contract leaves open. It states only that some duplicate-free enumeration of the keys was used.
- Query failures other than a missing building bundle, such as a despawned entity still in the map, cannot arise in the model, because entries carry their components.
