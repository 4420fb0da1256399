/** The per-chunk ECS state the pipeline systems share, after
    `src/world/pipeline/mod.rs`: the `ChunkEntityMap` resource and, per
    mapped coordinate, the components of that coordinate's entity. */
module Registry {
  import opened Wrappers
  import opened Math
  import opened Chunks
  import opened Voxels

  /** The renderable mesh handed to the rendering boundary. */
  datatype Mesh = Mesh(positions: seq<Vec3>, normals: seq<Vec3>, indices: seq<nat>)

  /** `ChunkBuildingBundle`: the intermediate buffers of one rebuild. The
      three components are only ever inserted and removed together. */
  datatype Building = Building(
    facesOcclusion: OcclusionBuffer,
    faces: seq<VoxelFace>,
    vertices: seq<VoxelVertex>)

  /** `ChunkBuildingBundle::default()`: no side of any voxel occluded, no
      faces and no vertices. */
  function DefaultBuilding(): (b: Building)
    ensures forall i :: 0 <= i < BUFFER_SIZE ==> b.facesOcclusion[i] == NoFacesOccluded()
    ensures b.faces == [] && b.vertices == []
  {
    Building(DefaultOcclusion(), [], [])
  }

  /** One chunk entity: its `ChunkLocal`, its transform's translation, its
      building bundle (`None` once removed) and its mesh handle (`None`
      until a mesh is generated). */
  datatype Entry = Entry(local: IVec3, translation: Vec3, building: Option<Building>, mesh: Option<Mesh>)

  /** The entity `spawn_chunks_system` creates for `local`. */
  function SpawnedEntry(local: IVec3): Entry {
    Entry(local, ToWorld(local), Some(DefaultBuilding()), None)
  }

  /** `ChunkEntityMap`, with each mapped entity's components folded into
      the entry. */
  class ChunkEntityMap {
    var entries: map<IVec3, Entry>

    /** `ChunkEntityMap(HashMap::default())`. */
    constructor ()
      ensures entries == map[]
    {
      entries := map[];
    }
  }
}
