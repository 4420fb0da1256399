/** `src/world/pipeline/rendering.rs`: the meshing stages run over each
    batch of dirty chunk events, in the order faces occlusion, faces
    merging, vertices computation, mesh generation and clean-up. */
module Rendering {
  import opened Wrappers
  import opened Math
  import opened Chunks
  import opened Voxels
  import opened Registry

  // ---------------------------------------------------------------------
  // Faces occlusion

  /** The face of `voxel` toward `dir` is occluded when the neighbour lies
      inside the chunk and holds kind exactly 1. Neighbours in other chunks
      are not consulted. */
  predicate SideOccluded(kinds: ChunkKinds, voxel: IVec3, dir: IVec3) {
    var neighbor := voxel.Add(dir);
    IsWithinBounds(neighbor) && KindAt(kinds, neighbor) == 1
  }

  /** The flags of one voxel: all set for an empty voxel, otherwise one
      `SideOccluded` per side. */
  function VoxelOcclusion(kinds: ChunkKinds, dirs: SideDirs, voxel: IVec3): FacesOcclusion
    requires IsWithinBounds(voxel)
  {
    if KindAt(kinds, voxel) == 0 then AllFacesOccluded()
    else seq(SIDE_COUNT, s requires 0 <= s < SIDE_COUNT => SideOccluded(kinds, voxel, dirs[s]))
  }

  /** The occlusion buffer of a chunk, slot `i` belonging to `to_xyz(i)`. */
  function Occlusion(kinds: ChunkKinds, dirs: SideDirs): OcclusionBuffer {
    seq(BUFFER_SIZE, i requires 0 <= i < BUFFER_SIZE => VoxelOcclusion(kinds, dirs, ToXyz(i)))
  }

  /** The body of `faces_occlusion_system` for one chunk, on the
      component's buffer in place: reset every slot to no occlusion, then
      for each voxel set all flags if it is empty, or else set the flag of
      each side whose in-bounds neighbour has kind 1. The result does not
      depend on what the buffer held before. */
  method ComputeFacesOcclusion(chunk: Chunk, dirs: SideDirs, occ: array<FacesOcclusion>)
    requires chunk.Valid() && occ.Length == BUFFER_SIZE
    modifies occ
    ensures occ[..] == Occlusion(chunk.Kinds(), dirs)
  {
    for i := 0 to BUFFER_SIZE
      invariant forall j :: 0 <= j < i ==> occ[j] == NoFacesOccluded()
    {
      occ[i] := NoFacesOccluded();
    }
    for i := 0 to BUFFER_SIZE
      invariant forall j :: 0 <= j < i ==> occ[j] == VoxelOcclusion(chunk.Kinds(), dirs, ToXyz(j))
      invariant forall j :: i <= j < BUFFER_SIZE ==> occ[j] == NoFacesOccluded()
    {
      var voxel := ToXyz(i);
      IndexRoundTrip(i);
      var index := ToIndex(voxel);
      if chunk.GetVoxelKind(voxel) == 0 {
        occ[index] := AllFacesOccluded();
        continue;
      }
      for side := 0 to SIDE_COUNT
        invariant forall j :: 0 <= j < i ==> occ[j] == VoxelOcclusion(chunk.Kinds(), dirs, ToXyz(j))
        invariant forall j :: i < j < BUFFER_SIZE ==> occ[j] == NoFacesOccluded()
        invariant forall t :: 0 <= t < side ==> occ[i][t] == SideOccluded(chunk.Kinds(), voxel, dirs[t])
        invariant forall t :: side <= t < SIDE_COUNT ==> !occ[i][t]
      {
        var neighbor := voxel.Add(dirs[side]);
        if !IsWithinBounds(neighbor) {
          continue;
        }
        if chunk.GetVoxelKind(neighbor) == 1 {
          occ[index] := occ[index][side := true];
        }
      }
      assert occ[i] == VoxelOcclusion(chunk.Kinds(), dirs, voxel);
    }
    assert occ[..] == Occlusion(chunk.Kinds(), dirs);
  }

  /** The slot of a voxel holds that voxel's flags. */
  lemma OcclusionAt(kinds: ChunkKinds, dirs: SideDirs, voxel: IVec3)
    requires IsWithinBounds(voxel)
    ensures Occlusion(kinds, dirs)[ToIndex(voxel)] == VoxelOcclusion(kinds, dirs, voxel)
  {
    LocalRoundTrip(voxel);
  }

  /** An empty voxel has all six sides occluded. */
  lemma EmptyVoxelOccluded(kinds: ChunkKinds, dirs: SideDirs, voxel: IVec3, side: Side)
    requires IsWithinBounds(voxel) && KindAt(kinds, voxel) == 0
    ensures Occlusion(kinds, dirs)[ToIndex(voxel)][side]
  {
    OcclusionAt(kinds, dirs, voxel);
  }

  /** For a non-empty voxel a side is occluded exactly when its neighbour
      is inside the chunk and has kind 1; kinds other than 1 do not
      occlude. */
  lemma SolidSideOccludedIff(kinds: ChunkKinds, dirs: SideDirs, voxel: IVec3, side: Side)
    requires IsWithinBounds(voxel) && KindAt(kinds, voxel) != 0
    ensures Occlusion(kinds, dirs)[ToIndex(voxel)][side] <==>
      IsWithinBounds(voxel.Add(dirs[side])) && KindAt(kinds, voxel.Add(dirs[side])) == 1
  {
    OcclusionAt(kinds, dirs, voxel);
  }

  /** A side of a non-empty voxel facing out of the chunk stays
      unoccluded. */
  lemma BoundarySideUnoccluded(kinds: ChunkKinds, dirs: SideDirs, voxel: IVec3, side: Side)
    requires IsWithinBounds(voxel) && KindAt(kinds, voxel) != 0
    requires !IsWithinBounds(voxel.Add(dirs[side]))
    ensures !Occlusion(kinds, dirs)[ToIndex(voxel)][side]
  {
    SolidSideOccludedIff(kinds, dirs, voxel, side);
  }

  /** A chunk of empty voxels is fully occluded. */
  lemma EmptyChunkFullyOccluded(dirs: SideDirs)
    ensures forall i, s :: 0 <= i < BUFFER_SIZE && 0 <= s < SIDE_COUNT ==> Occlusion(EmptyKinds(), dirs)[i][s]
  {
    forall i | 0 <= i < BUFFER_SIZE
      ensures Occlusion(EmptyKinds(), dirs)[i] == AllFacesOccluded()
    {
      assert KindAt(EmptyKinds(), ToXyz(i)) == 0;
    }
  }

  /** The solid voxels of the occlusion unit test: a column (1,1,1) under
      (1,2,1), and (10,10,10) with its six neighbours. */
  const TEST_SOLIDS: set<IVec3> := {
    IVec3(1, 1, 1), IVec3(1, 2, 1),
    IVec3(10, 10, 10), IVec3(9, 10, 10), IVec3(11, 10, 10), IVec3(10, 9, 10),
    IVec3(10, 11, 10), IVec3(10, 10, 9), IVec3(10, 10, 11)}

  /** Chunk contents with kind 1 exactly at `TEST_SOLIDS`. */
  ghost predicate IsTestChunk(kinds: ChunkKinds) {
    forall q :: IsWithinBounds(q) ==> KindAt(kinds, q) == if q in TEST_SOLIDS then 1 else 0
  }

  /** The unit test's nine `set_kind` calls on a default chunk give that
      chunk. */
  lemma TestChunkBuilt()
    ensures IsTestChunk(
      SetKind(SetKind(SetKind(SetKind(SetKind(SetKind(SetKind(SetKind(SetKind(EmptyKinds(),
        IVec3(1, 1, 1), 1), IVec3(1, 2, 1), 1),
        IVec3(10, 10, 10), 1), IVec3(9, 10, 10), 1), IVec3(11, 10, 10), 1), IVec3(10, 9, 10), 1),
        IVec3(10, 11, 10), 1), IVec3(10, 10, 9), 1), IVec3(10, 10, 11), 1))
  {
  }

  /** Of the stacked pair, the upper voxel is occluded only below
      (side 3). */
  lemma TopBottomExampleUpper(kinds: ChunkKinds, dirs: SideDirs)
    requires IsTestChunk(kinds) && IsSideDirTable(dirs)
    ensures Occlusion(kinds, dirs)[ToIndex(IVec3(1, 2, 1))] == [false, false, false, true, false, false]
  {
    var upper := IVec3(1, 2, 1);
    OcclusionAt(kinds, dirs, upper);
    assert KindAt(kinds, upper) == 1;
    var f := VoxelOcclusion(kinds, dirs, upper);
    forall s: Side | s != DOWN
      ensures !f[s]
    {
      HorizontalNeighborEmpty(kinds, dirs, upper, s);
    }
    assert KindAt(kinds, upper.Add(dirs[DOWN])) == 1;
    assert f == [false, false, false, true, false, false];
  }

  /** Of the stacked pair, the lower voxel is occluded only above (side
      2). */
  lemma TopBottomExampleLower(kinds: ChunkKinds, dirs: SideDirs)
    requires IsTestChunk(kinds) && IsSideDirTable(dirs)
    ensures Occlusion(kinds, dirs)[ToIndex(IVec3(1, 1, 1))] == [false, false, true, false, false, false]
  {
    var lower := IVec3(1, 1, 1);
    OcclusionAt(kinds, dirs, lower);
    assert KindAt(kinds, lower) == 1;
    var f := VoxelOcclusion(kinds, dirs, lower);
    forall s: Side | s != UP
      ensures !f[s]
    {
      HorizontalNeighborEmpty(kinds, dirs, lower, s);
    }
    assert KindAt(kinds, lower.Add(dirs[UP])) == 1;
    assert f == [false, false, true, false, false, false];
  }

  /** In the test chunk, the stacked pair has no solid neighbour except
      each other. */
  lemma HorizontalNeighborEmpty(kinds: ChunkKinds, dirs: SideDirs, v: IVec3, s: Side)
    requires IsTestChunk(kinds) && IsSideDirTable(dirs)
    requires v == IVec3(1, 1, 1) || v == IVec3(1, 2, 1)
    requires v == IVec3(1, 1, 1) ==> s != UP
    requires v == IVec3(1, 2, 1) ==> s != DOWN
    ensures !SideOccluded(kinds, v, dirs[s])
  {
    var n := v.Add(dirs[s]);
    if s != UP && s != DOWN {
      assert IsHorizontalUnit(dirs[s]);
    }
    assert n !in TEST_SOLIDS;
  }

  /** A solid voxel whose six neighbours are kind 1 is fully occluded. */
  lemma SurroundedExample(kinds: ChunkKinds, dirs: SideDirs)
    requires IsTestChunk(kinds) && IsSideDirTable(dirs)
    ensures Occlusion(kinds, dirs)[ToIndex(IVec3(10, 10, 10))] == AllFacesOccluded()
  {
    var center := IVec3(10, 10, 10);
    OcclusionAt(kinds, dirs, center);
    forall s: Side
      ensures SideOccluded(kinds, center, dirs[s])
    {
      assert s == UP || s == DOWN || IsHorizontalUnit(dirs[s]);
    }
  }

  // ---------------------------------------------------------------------
  // Vertices computation

  /** The vertex for corner `i` of `face`: the side's unit-cube corner
      moved by the face corner's offset, carrying the side's normal. */
  function CornerVertex(face: VoxelFace, i: nat, tables: Tables): VoxelVertex
    requires i < QUAD_CORNERS
  {
    var baseVertex := tables.cubeVertices[tables.verticesIndices[face.side][i]];
    VoxelVertex(baseVertex.Add(AsF32(face.vertices[i])), tables.sideNormals[face.side])
  }

  /** The vertex list of a face list, face by face and corner by corner.
      Defined from the back so that it follows the loop. */
  function Vertices(faces: seq<VoxelFace>, tables: Tables): (r: seq<VoxelVertex>)
    ensures |r| == QUAD_CORNERS * |faces|
    decreases |faces|
  {
    if |faces| == 0 then []
    else
      var face := faces[|faces| - 1];
      Vertices(faces[..|faces| - 1], tables) + seq(QUAD_CORNERS, i requires 0 <= i < QUAD_CORNERS => CornerVertex(face, i, tables))
  }

  /** There is one vertex per face corner, and vertex `k` is corner
      `k % 4` of face `k / 4` with that face's side normal. */
  lemma {:induction false} VerticesAt(faces: seq<VoxelFace>, tables: Tables)
    ensures |Vertices(faces, tables)| == QUAD_CORNERS * |faces|
    ensures forall k :: 0 <= k < |Vertices(faces, tables)| ==>
      Vertices(faces, tables)[k] == CornerVertex(faces[k / QUAD_CORNERS], k % QUAD_CORNERS, tables)
    ensures forall k :: 0 <= k < |Vertices(faces, tables)| ==>
      Vertices(faces, tables)[k].normal == tables.sideNormals[faces[k / QUAD_CORNERS].side]
    decreases |faces|
  {
    if |faces| > 0 {
      var init := faces[..|faces| - 1];
      VerticesAt(init, tables);
      var vs := Vertices(faces, tables);
      forall k | 0 <= k < |vs|
        ensures vs[k] == CornerVertex(faces[k / QUAD_CORNERS], k % QUAD_CORNERS, tables)
      {
        if k < QUAD_CORNERS * |init| {
          assert k / QUAD_CORNERS < |init|;
          assert faces[k / QUAD_CORNERS] == init[k / QUAD_CORNERS];
        } else {
          assert k / QUAD_CORNERS == |faces| - 1;
        }
      }
    }
  }

  /** The body of `vertices_computation_system` for one entity: clear the
      list, then push one vertex per corner of each face. */
  method ComputeVertices(faces: seq<VoxelFace>, tables: Tables) returns (vertices: seq<VoxelVertex>)
    ensures vertices == Vertices(faces, tables)
  {
    vertices := [];
    for j := 0 to |faces|
      invariant vertices == Vertices(faces[..j], tables)
    {
      var face := faces[j];
      var normal := tables.sideNormals[face.side];
      ghost var before := vertices;
      for i := 0 to QUAD_CORNERS
        invariant |vertices| == |before| + i
        invariant vertices[..|before|] == before
        invariant forall k :: 0 <= k < i ==> vertices[|before| + k] == CornerVertex(face, k, tables)
      {
        var baseVertexIdx := tables.verticesIndices[face.side][i];
        var baseVertex := tables.cubeVertices[baseVertexIdx];
        vertices := vertices + [VoxelVertex(baseVertex.Add(AsF32(face.vertices[i])), normal)];
      }
      assert faces[..j + 1][..j] == faces[..j];
      assert vertices == Vertices(faces[..j + 1], tables);
    }
    assert faces[..|faces|] == faces;
  }

  // ---------------------------------------------------------------------
  // Mesh generation

  /** The mesh of a vertex list: positions and normals copied in order,
      indices from the triangulation `mesh::compute_indices`. */
  function MeshOf(vertices: seq<VoxelVertex>, computeIndices: nat -> seq<nat>): (m: Mesh)
    ensures |m.positions| == |vertices| && |m.normals| == |vertices|
    ensures forall k :: 0 <= k < |vertices| ==>
      m.positions[k] == vertices[k].position && m.normals[k] == vertices[k].normal
    ensures m.indices == computeIndices(|vertices|)
  {
    Mesh(seq(|vertices|, k requires 0 <= k < |vertices| => vertices[k].position),
         seq(|vertices|, k requires 0 <= k < |vertices| => vertices[k].normal),
         computeIndices(|vertices|))
  }

  /** The attribute loop of `mesh_generation_system`. */
  method BuildMesh(vertices: seq<VoxelVertex>, computeIndices: nat -> seq<nat>) returns (mesh: Mesh)
    ensures mesh == MeshOf(vertices, computeIndices)
    ensures |mesh.positions| == |vertices| && |mesh.normals| == |vertices|
    ensures forall k :: 0 <= k < |vertices| ==>
      mesh.positions[k] == vertices[k].position && mesh.normals[k] == vertices[k].normal
  {
    var positions: seq<Vec3> := [];
    var normals: seq<Vec3> := [];
    var vertexCount := |vertices|;
    for k := 0 to |vertices|
      invariant |positions| == k && |normals| == k
      invariant forall m :: 0 <= m < k ==> positions[m] == vertices[m].position && normals[m] == vertices[m].normal
    {
      positions := positions + [vertices[k].position];
      normals := normals + [vertices[k].normal];
    }
    mesh := Mesh(positions, normals, computeIndices(vertexCount));
  }

  // ---------------------------------------------------------------------
  // The stages over a dirty batch

  /** A stage and what it reads besides the entity map: the chunk contents
      of the voxel world, the side directions, the merge of `mesh::merge_faces`,
      the mesh tables, the triangulation. */
  datatype Stage =
    | FacesOcclusionStage(world: map<IVec3, ChunkKinds>, dirs: SideDirs)
    | FacesMergingStage(world: map<IVec3, ChunkKinds>, merge: (OcclusionBuffer, ChunkKinds) -> seq<VoxelFace>)
    | VerticesStage(tables: Tables)
    | MeshGenerationStage(computeIndices: nat -> seq<nat>)
    | CleanUpStage

  /** What a stage needs, besides the coordinate being mapped, to process
      it: the occlusion and merging stages need the chunk in the voxel world
      and the building bundle on the entity; the vertex and mesh stages need
      the bundle; clean-up needs nothing more. */
  predicate Ready(stage: Stage, c: IVec3, e: Entry) {
    match stage
    case FacesOcclusionStage(world, _) => c in world && e.building.Some?
    case FacesMergingStage(world, _) => c in world && e.building.Some?
    case VerticesStage(_) => e.building.Some?
    case MeshGenerationStage(_) => e.building.Some?
    case CleanUpStage => true
  }

  /** What a stage does to the entry of a coordinate it processes. No
      stage touches the entity's coordinate or translation; only mesh
      generation touches the mesh, and it alone leaves the building bundle
      as it was; only clean-up removes the bundle. */
  function Apply(stage: Stage, c: IVec3, e: Entry): (r: Entry)
    requires Ready(stage, c, e)
    ensures r.local == e.local && r.translation == e.translation
    ensures !stage.MeshGenerationStage? ==> r.mesh == e.mesh
    ensures stage.MeshGenerationStage? ==> r.building == e.building && r.mesh.Some?
    ensures r.building.None? <==> stage.CleanUpStage?
  {
    match stage
    case FacesOcclusionStage(world, dirs) =>
      e.(building := Some(e.building.value.(facesOcclusion := Occlusion(world[c], dirs))))
    case FacesMergingStage(world, merge) =>
      e.(building := Some(e.building.value.(faces := merge(e.building.value.facesOcclusion, world[c]))))
    case VerticesStage(tables) =>
      e.(building := Some(e.building.value.(vertices := Vertices(e.building.value.faces, tables))))
    case MeshGenerationStage(computeIndices) =>
      e.(mesh := Some(MeshOf(e.building.value.vertices, computeIndices)))
    case CleanUpStage =>
      e.(building := None)
  }

  /** Processing one dirty event: skip it when the coordinate is not
      mapped or the stage is not ready for it. */
  function Step(stage: Stage, entries: map<IVec3, Entry>, c: IVec3): (r: map<IVec3, Entry>)
    ensures r.Keys == entries.Keys
    ensures forall d :: d in entries && d != c ==> r[d] == entries[d]
    ensures c in entries && !Ready(stage, c, entries[c]) ==> r[c] == entries[c]
  {
    if c in entries && Ready(stage, c, entries[c]) then entries[c := Apply(stage, c, entries[c])]
    else entries
  }

  /** A stage over a dirty batch, event by event. Defined from the back so
      that it follows the loop. */
  function Batch(stage: Stage, entries: map<IVec3, Entry>, dirty: seq<IVec3>): (r: map<IVec3, Entry>)
    ensures r.Keys == entries.Keys
    decreases |dirty|
  {
    if |dirty| == 0 then entries
    else Step(stage, Batch(stage, entries, dirty[..|dirty| - 1]), dirty[|dirty| - 1])
  }

  /** A processed entry is ready again and processing it again changes
      nothing: every stage overwrites its output from inputs it does not
      write. */
  lemma ApplyIdempotent(stage: Stage, c: IVec3, e: Entry)
    requires Ready(stage, c, e)
    ensures Ready(stage, c, Apply(stage, c, e))
    ensures Apply(stage, c, Apply(stage, c, e)) == Apply(stage, c, e)
  {
  }

  /** The skip-on-missing policy of every stage. A stage keeps the mapped
      coordinates; an entry is processed, once in effect however often its
      coordinate is repeated, exactly when its coordinate is in the batch
      and the stage is ready for it; every other entry is unchanged, and a
      skipped event does not stop the rest of the batch. */
  lemma {:induction false} BatchAt(stage: Stage, entries: map<IVec3, Entry>, dirty: seq<IVec3>, c: IVec3)
    requires c in entries
    ensures Batch(stage, entries, dirty)[c] ==
      if c in dirty && Ready(stage, c, entries[c]) then Apply(stage, c, entries[c]) else entries[c]
    decreases |dirty|
  {
    if |dirty| > 0 {
      var init := dirty[..|dirty| - 1];
      var last := dirty[|dirty| - 1];
      assert dirty == init + [last];
      BatchAt(stage, entries, init, c);
      if c in init && Ready(stage, c, entries[c]) {
        ApplyIdempotent(stage, c, entries[c]);
      }
    }
  }

  /** Running a stage a second time over the same batch changes nothing;
      in particular a second faces occlusion pass yields the same buffers. */
  lemma BatchIdempotent(stage: Stage, entries: map<IVec3, Entry>, dirty: seq<IVec3>)
    ensures Batch(stage, Batch(stage, entries, dirty), dirty) == Batch(stage, entries, dirty)
  {
    var once := Batch(stage, entries, dirty);
    var twice := Batch(stage, once, dirty);
    forall c | c in entries
      ensures twice[c] == once[c]
    {
      BatchAt(stage, entries, dirty, c);
      BatchAt(stage, once, dirty, c);
      if c in dirty && Ready(stage, c, entries[c]) {
        ApplyIdempotent(stage, c, entries[c]);
      }
    }
  }

  /** The unit test of the clean-up stage: a mapped coordinate loses its
      building bundle. */
  lemma CleanUpExample(e: Entry)
    ensures Batch(CleanUpStage, map[IVec3(1, 2, 3) := e], [IVec3(1, 2, 3)])[IVec3(1, 2, 3)].building.None?
  {
    BatchAt(CleanUpStage, map[IVec3(1, 2, 3) := e], [IVec3(1, 2, 3)], IVec3(1, 2, 3));
  }

  // ---------------------------------------------------------------------
  // The systems

  /** Every chunk of the voxel world has a full buffer. */
  ghost predicate WorldValid(world: map<IVec3, Chunk>) {
    forall c :: c in world ==> world[c].Valid()
  }

  /** The contents of the voxel world's chunks. */
  function Snapshot(world: map<IVec3, Chunk>): (m: map<IVec3, ChunkKinds>)
    requires WorldValid(world)
    reads set c | c in world :: world[c].voxelKind
    ensures m.Keys == world.Keys
  {
    map c | c in world :: world[c].Kinds()
  }

  /** `faces_occlusion_system`. */
  method FacesOcclusionSystem(world: map<IVec3, Chunk>, reg: ChunkEntityMap, dirs: SideDirs, dirty: seq<IVec3>)
    requires WorldValid(world)
    modifies reg
    ensures reg.entries == Batch(FacesOcclusionStage(Snapshot(world), dirs), old(reg.entries), dirty)
  {
    ghost var stage := FacesOcclusionStage(Snapshot(world), dirs);
    for i := 0 to |dirty|
      invariant reg.entries == Batch(stage, old(reg.entries), dirty[..i])
      invariant Snapshot(world) == stage.world
    {
      var local := dirty[i];
      assert dirty[..i + 1][..i] == dirty[..i];
      if local !in world {
        continue;
      }
      var chunk := world[local];
      if local !in reg.entries {
        continue;
      }
      var entry := reg.entries[local];
      if entry.building.None? {
        continue;
      }
      var building := entry.building.value;
      var occ := new FacesOcclusion[BUFFER_SIZE](j requires 0 <= j < BUFFER_SIZE => building.facesOcclusion[j]);
      ComputeFacesOcclusion(chunk, dirs, occ);
      reg.entries := reg.entries[local := entry.(building := Some(building.(facesOcclusion := occ[..])))];
    }
    assert dirty[..|dirty|] == dirty;
  }

  /** `faces_merging_system`: the faces are replaced wholesale by the
      merge of the occlusion buffer and the chunk. */
  method FacesMergingSystem(world: map<IVec3, Chunk>, reg: ChunkEntityMap,
                            merge: (OcclusionBuffer, ChunkKinds) -> seq<VoxelFace>, dirty: seq<IVec3>)
    requires WorldValid(world)
    modifies reg
    ensures reg.entries == Batch(FacesMergingStage(Snapshot(world), merge), old(reg.entries), dirty)
  {
    ghost var stage := FacesMergingStage(Snapshot(world), merge);
    for i := 0 to |dirty|
      invariant reg.entries == Batch(stage, old(reg.entries), dirty[..i])
    {
      var local := dirty[i];
      assert dirty[..i + 1][..i] == dirty[..i];
      if local !in reg.entries {
        continue;
      }
      var entry := reg.entries[local];
      if entry.building.None? {
        continue;
      }
      if local !in world {
        continue;
      }
      var chunk := world[local];
      var building := entry.building.value;
      var mergedFaces := merge(building.facesOcclusion, chunk.Kinds());
      reg.entries := reg.entries[local := entry.(building := Some(building.(faces := mergedFaces)))];
    }
    assert dirty[..|dirty|] == dirty;
  }

  /** `vertices_computation_system`. */
  method VerticesComputationSystem(reg: ChunkEntityMap, tables: Tables, dirty: seq<IVec3>)
    modifies reg
    ensures reg.entries == Batch(VerticesStage(tables), old(reg.entries), dirty)
  {
    for i := 0 to |dirty|
      invariant reg.entries == Batch(VerticesStage(tables), old(reg.entries), dirty[..i])
    {
      var local := dirty[i];
      assert dirty[..i + 1][..i] == dirty[..i];
      if local !in reg.entries {
        continue;
      }
      var entry := reg.entries[local];
      if entry.building.None? {
        continue;
      }
      var building := entry.building.value;
      var vertices := ComputeVertices(building.faces, tables);
      reg.entries := reg.entries[local := entry.(building := Some(building.(vertices := vertices)))];
    }
    assert dirty[..|dirty|] == dirty;
  }

  /** `mesh_generation_system`: the mesh handle is replaced by a new mesh
      of the entity's vertices. */
  method MeshGenerationSystem(reg: ChunkEntityMap, computeIndices: nat -> seq<nat>, dirty: seq<IVec3>)
    modifies reg
    ensures reg.entries == Batch(MeshGenerationStage(computeIndices), old(reg.entries), dirty)
  {
    for i := 0 to |dirty|
      invariant reg.entries == Batch(MeshGenerationStage(computeIndices), old(reg.entries), dirty[..i])
    {
      var local := dirty[i];
      assert dirty[..i + 1][..i] == dirty[..i];
      if local !in reg.entries {
        continue;
      }
      var entry := reg.entries[local];
      if entry.building.None? {
        continue;
      }
      var mesh := BuildMesh(entry.building.value.vertices, computeIndices);
      reg.entries := reg.entries[local := entry.(mesh := Some(mesh))];
    }
    assert dirty[..|dirty|] == dirty;
  }

  /** `clean_up_system`: the building bundle of every mapped dirty
      coordinate is removed. */
  method CleanUpSystem(reg: ChunkEntityMap, dirty: seq<IVec3>)
    modifies reg
    ensures reg.entries == Batch(CleanUpStage, old(reg.entries), dirty)
  {
    for i := 0 to |dirty|
      invariant reg.entries == Batch(CleanUpStage, old(reg.entries), dirty[..i])
    {
      var local := dirty[i];
      assert dirty[..i + 1][..i] == dirty[..i];
      if local !in reg.entries {
        continue;
      }
      var entry := reg.entries[local];
      reg.entries := reg.entries[local := entry.(building := None)];
    }
    assert dirty[..|dirty|] == dirty;
  }

  // ---------------------------------------------------------------------
  // The five stages in their scheduled order

  /** The entity map after the rendering stages have each run over the
      same dirty batch, in order. */
  function Rebuild(world: map<IVec3, ChunkKinds>, dirs: SideDirs, merge: (OcclusionBuffer, ChunkKinds) -> seq<VoxelFace>,
                   tables: Tables, computeIndices: nat -> seq<nat>,
                   entries: map<IVec3, Entry>, dirty: seq<IVec3>): map<IVec3, Entry>
  {
    var occluded := Batch(FacesOcclusionStage(world, dirs), entries, dirty);
    var merged := Batch(FacesMergingStage(world, merge), occluded, dirty);
    var withVertices := Batch(VerticesStage(tables), merged, dirty);
    var meshed := Batch(MeshGenerationStage(computeIndices), withVertices, dirty);
    Batch(CleanUpStage, meshed, dirty)
  }

  /** A dirty chunk present in the world whose entity carries a building
      bundle ends up with the mesh of its merged, occlusion-culled faces,
      and its intermediate buffers removed. */
  lemma RebuildComplete(world: map<IVec3, ChunkKinds>, dirs: SideDirs, merge: (OcclusionBuffer, ChunkKinds) -> seq<VoxelFace>,
                        tables: Tables, computeIndices: nat -> seq<nat>,
                        entries: map<IVec3, Entry>, dirty: seq<IVec3>, c: IVec3)
    requires c in dirty && c in world && c in entries && entries[c].building.Some?
    ensures c in Rebuild(world, dirs, merge, tables, computeIndices, entries, dirty)
    ensures Rebuild(world, dirs, merge, tables, computeIndices, entries, dirty)[c] ==
      entries[c].(building := None,
                  mesh := Some(MeshOf(Vertices(merge(Occlusion(world[c], dirs), world[c]), tables), computeIndices)))
  {
    RebuildSteps(world, dirs, merge, tables, computeIndices, entries, dirty, c);
  }

  /** A dirty chunk missing from the world keeps its old faces: its mesh is
      rebuilt from what the faces stage last produced for it. */
  lemma RebuildStaleFaces(world: map<IVec3, ChunkKinds>, dirs: SideDirs, merge: (OcclusionBuffer, ChunkKinds) -> seq<VoxelFace>,
                          tables: Tables, computeIndices: nat -> seq<nat>,
                          entries: map<IVec3, Entry>, dirty: seq<IVec3>, c: IVec3)
    requires c in dirty && c !in world && c in entries && entries[c].building.Some?
    ensures Rebuild(world, dirs, merge, tables, computeIndices, entries, dirty)[c] ==
      entries[c].(building := None,
                  mesh := Some(MeshOf(Vertices(entries[c].building.value.faces, tables), computeIndices)))
  {
    RebuildSteps(world, dirs, merge, tables, computeIndices, entries, dirty, c);
  }

  /** A dirty entity without a building bundle is left alone; one not in
      the batch is left alone; the mapped coordinates never change. */
  lemma RebuildElsewhere(world: map<IVec3, ChunkKinds>, dirs: SideDirs, merge: (OcclusionBuffer, ChunkKinds) -> seq<VoxelFace>,
                         tables: Tables, computeIndices: nat -> seq<nat>,
                         entries: map<IVec3, Entry>, dirty: seq<IVec3>, c: IVec3)
    ensures c in Rebuild(world, dirs, merge, tables, computeIndices, entries, dirty) <==> c in entries
    ensures c in entries && c !in dirty ==>
      Rebuild(world, dirs, merge, tables, computeIndices, entries, dirty)[c] == entries[c]
    ensures c in entries && entries[c].building.None? ==>
      Rebuild(world, dirs, merge, tables, computeIndices, entries, dirty)[c] == entries[c]
  {
    if c in entries {
      RebuildSteps(world, dirs, merge, tables, computeIndices, entries, dirty, c);
    }
  }

  /** The entry of `c` after each stage. */
  lemma RebuildSteps(world: map<IVec3, ChunkKinds>, dirs: SideDirs, merge: (OcclusionBuffer, ChunkKinds) -> seq<VoxelFace>,
                     tables: Tables, computeIndices: nat -> seq<nat>,
                     entries: map<IVec3, Entry>, dirty: seq<IVec3>, c: IVec3)
    requires c in entries
    ensures c in Rebuild(world, dirs, merge, tables, computeIndices, entries, dirty)
    ensures var e := StagesAt(world, dirs, merge, tables, computeIndices, entries[c], c);
      Rebuild(world, dirs, merge, tables, computeIndices, entries, dirty)[c] ==
        if c in dirty then e else entries[c]
  {
    var s1 := FacesOcclusionStage(world, dirs);
    var s2 := FacesMergingStage(world, merge);
    var s3 := VerticesStage(tables);
    var s4 := MeshGenerationStage(computeIndices);
    var b1 := Batch(s1, entries, dirty);
    var b2 := Batch(s2, b1, dirty);
    var b3 := Batch(s3, b2, dirty);
    var b4 := Batch(s4, b3, dirty);
    BatchAt(s1, entries, dirty, c);
    BatchAt(s2, b1, dirty, c);
    BatchAt(s3, b2, dirty, c);
    BatchAt(s4, b3, dirty, c);
    BatchAt(CleanUpStage, b4, dirty, c);
  }

  /** One entry taken through the five stages, each applied when ready. */
  function StagesAt(world: map<IVec3, ChunkKinds>, dirs: SideDirs, merge: (OcclusionBuffer, ChunkKinds) -> seq<VoxelFace>,
                    tables: Tables, computeIndices: nat -> seq<nat>, e: Entry, c: IVec3): Entry
  {
    var e1 := ApplyIfReady(FacesOcclusionStage(world, dirs), c, e);
    var e2 := ApplyIfReady(FacesMergingStage(world, merge), c, e1);
    var e3 := ApplyIfReady(VerticesStage(tables), c, e2);
    var e4 := ApplyIfReady(MeshGenerationStage(computeIndices), c, e3);
    ApplyIfReady(CleanUpStage, c, e4)
  }

  function ApplyIfReady(stage: Stage, c: IVec3, e: Entry): Entry {
    if Ready(stage, c, e) then Apply(stage, c, e) else e
  }
}
