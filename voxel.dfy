/** The voxel vocabulary the meshing stages use: sides, per-voxel face
    occlusion flags, merged faces, vertices and the constant tables they are
    built from. `voxel.rs` and `mesh.rs` are not part of this model; what the
    meshing stages need of them is stated here as types and as tables passed
    in by the caller. */
module Voxels {
  import opened Math
  import opened Chunks

  const SIDE_COUNT: nat := 6

  /** `voxel::Side`, by its index in `voxel::SIDES`. */
  type Side = s: nat | s < SIDE_COUNT

  /** The side indices the occlusion tests fix: 2 faces +y, 3 faces -y. */
  const UP: Side := 2
  const DOWN: Side := 3

  /** `voxel::FacesOcclusion`: one flag per side, `true` meaning occluded. */
  type FacesOcclusion = s: seq<bool> | |s| == SIDE_COUNT witness [false, false, false, false, false, false]

  /** `FacesOcclusion::default()`: no side occluded. */
  function NoFacesOccluded(): (f: FacesOcclusion)
    ensures forall s :: 0 <= s < SIDE_COUNT ==> !f[s]
  {
    seq(SIDE_COUNT, _ => false)
  }

  /** `fill(true)`: every side occluded. */
  function AllFacesOccluded(): (f: FacesOcclusion)
    ensures forall s :: 0 <= s < SIDE_COUNT ==> f[s]
  {
    seq(SIDE_COUNT, _ => true)
  }

  /** `ChunkFacesOcclusion`: one `FacesOcclusion` per voxel index. */
  type OcclusionBuffer = s: seq<FacesOcclusion> | |s| == BUFFER_SIZE
    witness seq(BUFFER_SIZE, _ => [false, false, false, false, false, false])

  /** `ChunkFacesOcclusion::default()`. */
  function DefaultOcclusion(): (b: OcclusionBuffer)
    ensures forall i :: 0 <= i < BUFFER_SIZE ==> b[i] == NoFacesOccluded()
  {
    seq(BUFFER_SIZE, _ => NoFacesOccluded())
  }

  /** `voxel::get_side_dir` as a table indexed by side. */
  type SideDirs = s: seq<IVec3> | |s| == SIDE_COUNT witness seq(SIDE_COUNT, _ => IVec3(0, 0, 0))

  predicate IsHorizontalUnit(d: IVec3) {
    d == IVec3(1, 0, 0) || d == IVec3(-1, 0, 0) || d == IVec3(0, 0, 1) || d == IVec3(0, 0, -1)
  }

  /** What is known of the direction table: side 2 points up, side 3 down,
      and sides 0, 1, 4 and 5 are the four horizontal unit steps in some
      order. */
  predicate IsSideDirTable(dirs: SideDirs) {
    && dirs[UP] == IVec3(0, 1, 0)
    && dirs[DOWN] == IVec3(0, -1, 0)
    && IsHorizontalUnit(dirs[0]) && IsHorizontalUnit(dirs[1])
    && IsHorizontalUnit(dirs[4]) && IsHorizontalUnit(dirs[5])
    && dirs[0] != dirs[1] && dirs[0] != dirs[4] && dirs[0] != dirs[5]
    && dirs[1] != dirs[4] && dirs[1] != dirs[5] && dirs[4] != dirs[5]
  }

  const QUAD_CORNERS: nat := 4

  /** The four corner offsets of a merged face. */
  type Quad = q: seq<IVec3> | |q| == QUAD_CORNERS witness seq(QUAD_CORNERS, _ => IVec3(0, 0, 0))

  /** `voxel::VoxelFace`: a merged face, its side and its corners in chunk
      space. */
  datatype VoxelFace = VoxelFace(side: Side, vertices: Quad)

  /** `voxel::VoxelVertex`. */
  datatype VoxelVertex = VoxelVertex(position: Vec3, normal: Vec3)

  /** `mesh::VERTICES` (unit-cube corners), `mesh::VERTICES_INDICES` (for
      each side, the cube corner of each face corner) and
      `voxel::get_side_normal` as a table indexed by side. */
  datatype MeshTables = MeshTables(
    cubeVertices: seq<Vec3>,
    verticesIndices: seq<seq<nat>>,
    sideNormals: seq<Vec3>)

  /** The shape the vertex stage indexes: one row of four cube-corner
      indices per side, each naming a cube vertex, and one normal per side. */
  predicate WellFormedTables(t: MeshTables) {
    && |t.verticesIndices| == SIDE_COUNT
    && |t.sideNormals| == SIDE_COUNT
    && (forall s :: 0 <= s < SIDE_COUNT ==> |t.verticesIndices[s]| == QUAD_CORNERS)
    && (forall s, i :: 0 <= s < SIDE_COUNT && 0 <= i < QUAD_CORNERS ==>
          t.verticesIndices[s][i] < |t.cubeVertices|)
  }

  type Tables = t: MeshTables | WellFormedTables(t)
    witness MeshTables([Vec3(0.0, 0.0, 0.0)],
                       seq(SIDE_COUNT, _ => [0, 0, 0, 0]),
                       seq(SIDE_COUNT, _ => Vec3(0.0, 0.0, 0.0)))
}
