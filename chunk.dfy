/** Chunk constants, local-coordinate/index mapping, chunk/world scaling
    and the dense voxel buffer of `src/world/storage/chunk.rs`. */
module Chunks {
  import opened Math

  const AXIS_SIZE: nat := 16
  const BUFFER_SIZE: nat := AXIS_SIZE * AXIS_SIZE * AXIS_SIZE

  const X_MASK: bv12 := 0xF00
  const Z_MASK: bv12 := 0x0F0
  const Y_MASK: bv12 := 0x00F

  const X_SHIFT: nat := 8
  const Z_SHIFT: nat := 4
  const Y_SHIFT: nat := 0

  /** `voxel::Kind`: 0 is empty (air). `voxel.rs` is not part of this model,
      so the kind is an unbounded integer. */
  type Kind = int

  /** The contents of one chunk as a value: one kind per voxel index. */
  type ChunkKinds = s: seq<Kind> | |s| == BUFFER_SIZE witness seq(BUFFER_SIZE, _ => 0)

  /** `is_within_bounds`: the cube `[0, AXIS_SIZE - 1]` on every axis. */
  predicate IsWithinBounds(pos: IVec3): (r: bool)
    ensures r <==> (0 <= pos.x < AXIS_SIZE && 0 <= pos.y < AXIS_SIZE && 0 <= pos.z < AXIS_SIZE)
  {
    IsWithinCubicBounds(pos, 0, AXIS_SIZE as int - 1)
  }

  /** `to_xyz`: x comes from bits 8-11, y from bits 0-3 and z from bits
      4-7. Masking keeps only those bits, so for any index the result is
      a valid local coordinate. */
  function ToXyz(index: nat): (p: IVec3)
    ensures IsWithinBounds(p)
  {
    IVec3((index / 256) % 16, index % 16, (index / 16) % 16)
  }

  /** `to_index`: `x << 8 | y << 0 | z << 4`. On the valid domain the three
      fields do not overlap, so the OR is a sum, and it indexes the buffer. */
  function ToIndex(local: IVec3): (i: nat)
    requires IsWithinBounds(local)
    ensures i < BUFFER_SIZE
  {
    local.x * 256 + local.y + local.z * 16
  }

  /** `to_xyz` recovers every valid local coordinate from its index. */
  lemma LocalRoundTrip(p: IVec3)
    requires IsWithinBounds(p)
    ensures ToXyz(ToIndex(p)) == p
  {
    Digits(ToIndex(p), p.x, p.z, p.y);
  }

  /** Helper of `LocalRoundTrip`: base-16 digits are unique. */
  lemma Digits(i: int, a: int, b: int, c: int)
    requires 0 <= a < 16 && 0 <= b < 16 && 0 <= c < 16
    requires i == 256 * a + 16 * b + c
    ensures a == (i / 256) % 16 && b == (i / 16) % 16 && c == i % 16
  {
  }

  /** Every buffer index is the index of the coordinate `to_xyz` gives. */
  lemma IndexRoundTrip(i: nat)
    requires i < BUFFER_SIZE
    ensures ToIndex(ToXyz(i)) == i
  {
    var p := ToXyz(i);
    assert i == 256 * p.x + 16 * p.z + p.y;
  }

  /** Two valid coordinates with one index are the same coordinate. */
  lemma ToIndexInjective(p: IVec3, q: IVec3)
    requires IsWithinBounds(p) && IsWithinBounds(q)
    requires ToIndex(p) == ToIndex(q)
    ensures p == q
  {
    LocalRoundTrip(p);
    LocalRoundTrip(q);
  }

  /** `to_index` maps `[0,15]^3` onto `[0, 4096)`. */
  lemma ToIndexSurjective(i: nat)
    requires i < BUFFER_SIZE
    ensures exists p :: IsWithinBounds(p) && ToIndex(p) == i
  {
    IndexRoundTrip(i);
  }

  /** y is the fastest-varying axis (stride 1), then z (stride 16), and x
      is the slowest (stride 256). */
  lemma ToIndexStrides(p: IVec3)
    requires IsWithinBounds(p)
    ensures p.y < AXIS_SIZE - 1 ==> ToIndex(p.Add(IVec3(0, 1, 0))) == ToIndex(p) + 1
    ensures p.z < AXIS_SIZE - 1 ==> ToIndex(p.Add(IVec3(0, 0, 1))) == ToIndex(p) + AXIS_SIZE
    ensures p.x < AXIS_SIZE - 1 ==> ToIndex(p.Add(IVec3(1, 0, 0))) == ToIndex(p) + AXIS_SIZE * AXIS_SIZE
  {
  }

  lemma ToXyzExamples()
    ensures ToXyz(0) == IVec3(0, 0, 0)
    ensures ToXyz(1) == IVec3(0, 1, 0)
    ensures ToXyz(2) == IVec3(0, 2, 0)
    ensures ToXyz(AXIS_SIZE) == IVec3(0, 0, 1)
    ensures ToXyz(AXIS_SIZE + 1) == IVec3(0, 1, 1)
    ensures ToXyz(AXIS_SIZE + 2) == IVec3(0, 2, 1)
    ensures ToXyz(AXIS_SIZE * AXIS_SIZE) == IVec3(1, 0, 0)
    ensures ToXyz(AXIS_SIZE * AXIS_SIZE + 1) == IVec3(1, 1, 0)
    ensures ToXyz(AXIS_SIZE * AXIS_SIZE + 2) == IVec3(1, 2, 0)
    ensures ToXyz(AXIS_SIZE * AXIS_SIZE + AXIS_SIZE) == IVec3(1, 0, 1)
    ensures ToXyz(AXIS_SIZE * AXIS_SIZE + AXIS_SIZE + 1) == IVec3(1, 1, 1)
    ensures ToXyz(AXIS_SIZE * AXIS_SIZE + AXIS_SIZE + 2) == IVec3(1, 2, 1)
  {
  }

  lemma ToIndexOrigin()
    ensures ToIndex(IVec3(0, 0, 0)) == 0
  {
  }

  lemma ToIndexExamplesY()
    ensures ToIndex(IVec3(0, 1, 0)) == 1
    ensures ToIndex(IVec3(0, 2, 0)) == 2
  {
  }

  lemma ToIndexExamplesZ()
    ensures ToIndex(IVec3(0, 0, 1)) == AXIS_SIZE
    ensures ToIndex(IVec3(0, 1, 1)) == AXIS_SIZE + 1
    ensures ToIndex(IVec3(0, 2, 1)) == AXIS_SIZE + 2
  {
  }

  lemma ToIndexExamplesX1()
    ensures ToIndex(IVec3(1, 0, 0)) == AXIS_SIZE * AXIS_SIZE
    ensures ToIndex(IVec3(1, 1, 0)) == AXIS_SIZE * AXIS_SIZE + 1
    ensures ToIndex(IVec3(1, 2, 0)) == AXIS_SIZE * AXIS_SIZE + 2
    ensures ToIndex(IVec3(1, 0, 1)) == AXIS_SIZE * AXIS_SIZE + AXIS_SIZE
    ensures ToIndex(IVec3(1, 1, 1)) == AXIS_SIZE * AXIS_SIZE + AXIS_SIZE + 1
    ensures ToIndex(IVec3(1, 2, 1)) == AXIS_SIZE * AXIS_SIZE + AXIS_SIZE + 2
  {
  }

  // ---------------------------------------------------------------------
  // The same mapping with the source's shifts and masks, on 12-bit words
  // (the width of a buffer index).

  /** `to_index` with shifts and OR. */
  function ToIndexBits(x: bv12, y: bv12, z: bv12): bv12 {
    (x << X_SHIFT) | (y << Y_SHIFT) | (z << Z_SHIFT)
  }

  /** `to_xyz` with masks and shifts, as the triple `(x, y, z)`. */
  function ToXyzBits(index: bv12): (bv12, bv12, bv12) {
    ((index & X_MASK) >> X_SHIFT, (index & Y_MASK) >> Y_SHIFT, (index & Z_MASK) >> Z_SHIFT)
  }

  /** Helper of `ToIndexBitsAgree`: on 4-bit fields the shifts and OR are a sum. */
  lemma PackIsSum(x: bv12, y: bv12, z: bv12)
    requires x < 16 && y < 16 && z < 16
    ensures ToIndexBits(x, y, z) == x * 256 + z * 16 + y
  {
  }

  /** Helper of `ToXyzBitsAgree`: the masked fields are the base-16 digits. */
  lemma UnpackIsDigits(i: bv12)
    ensures ToXyzBits(i).0 < 16 && ToXyzBits(i).1 < 16 && ToXyzBits(i).2 < 16
    ensures i == ToXyzBits(i).0 * 256 + ToXyzBits(i).2 * 16 + ToXyzBits(i).1
  {
  }

  /** Helper of both bit-form lemmas: a digit sum below 4096 does not wrap in `bv12`. */
  lemma DigitSumToInt(a: bv12, b: bv12, c: bv12)
    requires a < 16 && b < 16 && c < 16
    ensures (a * 256 + b * 16 + c) as int == a as int * 256 + b as int * 16 + c as int
  {
  }

  /** The bit-packing `to_index` and the arithmetic `ToIndex` agree on
      every valid local coordinate. */
  lemma ToIndexBitsAgree(x: bv12, y: bv12, z: bv12)
    requires x < 16 && y < 16 && z < 16
    ensures ToIndexBits(x, y, z) as int == ToIndex(IVec3(x as int, y as int, z as int))
  {
    PackIsSum(x, y, z);
    DigitSumToInt(x, z, y);
  }

  lemma ToXyzBitsAgreeOnWord(b: bv12)
    ensures ToXyzBits(b).0 as int == (b as int / 256) % 16
    ensures ToXyzBits(b).1 as int == b as int % 16
    ensures ToXyzBits(b).2 as int == (b as int / 16) % 16
  {
    UnpackIsDigits(b);
    var x, y, z := ToXyzBits(b).0, ToXyzBits(b).1, ToXyzBits(b).2;
    DigitSumToInt(x, z, y);
    Digits(b as int, x as int, z as int, y as int);
  }

  /** The masking `to_xyz` and the arithmetic `ToXyz` agree on every
      buffer index. */
  lemma ToXyzBitsAgree(i: bv12)
    ensures IVec3(ToXyzBits(i).0 as int, ToXyzBits(i).1 as int, ToXyzBits(i).2 as int) == ToXyz(i as int)
  {
    ToXyzBitsAgreeOnWord(i);
  }

  /** Outside the chunk the fields overlap: y = 16 spills into the z field,
      so `(0, 16, 0)` packs to the index of `(0, 0, 1)`. Callers must check
      `is_within_bounds` first, as the occlusion stage does. */
  lemma ToIndexBitsOverlapOutside()
    ensures ToIndexBits(0, 16, 0) == ToIndexBits(0, 0, 1)
  {
  }

  // ---------------------------------------------------------------------
  // Chunk space and world space.

  /** `to_world`: the world-space origin of a chunk, `local * AXIS_SIZE`. */
  function ToWorld(local: IVec3): Vec3 {
    Vec3(local.x as real * AXIS_SIZE as real,
         local.y as real * AXIS_SIZE as real,
         local.z as real * AXIS_SIZE as real)
  }

  /** One axis of `to_local`: floor of `c / AXIS_SIZE`, cast to `i32`. */
  function ChunkAxis(c: real): (b: int)
    ensures IsI32(b)
    ensures IsI32((c / AXIS_SIZE as real).Floor) ==>
      b as real * AXIS_SIZE as real <= c < (b + 1) as real * AXIS_SIZE as real
  {
    FloorToI32(c / AXIS_SIZE as real)
  }

  /** `to_local`: the chunk containing a world position. It floors (never
      truncates), so negative positions fall in negative chunks; the chunk's
      world-space cell contains the position on every unsaturated axis. */
  function ToLocal(world: Vec3): (c: IVec3)
    ensures IsI32Vec(c)
    ensures IsI32((world.x / AXIS_SIZE as real).Floor) ==> ToWorld(c).x <= world.x < ToWorld(c).x + AXIS_SIZE as real
    ensures IsI32((world.y / AXIS_SIZE as real).Floor) ==> ToWorld(c).y <= world.y < ToWorld(c).y + AXIS_SIZE as real
    ensures IsI32((world.z / AXIS_SIZE as real).Floor) ==> ToWorld(c).z <= world.z < ToWorld(c).z + AXIS_SIZE as real
  {
    IVec3(ChunkAxis(world.x), ChunkAxis(world.y), ChunkAxis(world.z))
  }

  lemma ChunkAxisOfOffset(b: int, f: real)
    requires IsI32(b) && 0.0 <= f < AXIS_SIZE as real
    ensures ChunkAxis(b as real * AXIS_SIZE as real + f) == b
  {
    var c := b as real * AXIS_SIZE as real + f;
    assert c / AXIS_SIZE as real == b as real + f / AXIS_SIZE as real;
    assert (c / AXIS_SIZE as real).Floor == b;
  }

  /** A world position inside chunk `b` (offset `f` in `[0, AXIS_SIZE)` per
      axis from the chunk's origin) maps back to `b`. */
  lemma ToLocalOfOffset(b: IVec3, f: Vec3)
    requires IsI32Vec(b)
    requires 0.0 <= f.x < AXIS_SIZE as real && 0.0 <= f.y < AXIS_SIZE as real && 0.0 <= f.z < AXIS_SIZE as real
    ensures ToLocal(ToWorld(b).Add(f)) == b
  {
    ChunkAxisOfOffset(b.x, f.x);
    ChunkAxisOfOffset(b.y, f.y);
    ChunkAxisOfOffset(b.z, f.z);
  }

  /** `to_local` undoes `to_world` on every `i32` chunk coordinate. */
  lemma ToLocalOfToWorld(b: IVec3)
    requires IsI32Vec(b)
    ensures ToLocal(ToWorld(b)) == b
  {
    ToLocalOfOffset(b, Vec3(0.0, 0.0, 0.0));
    assert ToWorld(b).Add(Vec3(0.0, 0.0, 0.0)) == ToWorld(b);
  }

  lemma ToLocalExamples()
    ensures ToLocal(Vec3(3.0, -0.8, -17.0)) == IVec3(0, -1, -2)
    ensures ToLocal(Vec3(3.0, -15.8, 0.0)) == IVec3(0, -1, 0)
    ensures ToLocal(Vec3(-32.1, 20.0, 88.1)) == IVec3(-3, 1, 5)
  {
    ChunkAxisOfOffset(0, 3.0);
    ChunkAxisOfOffset(-1, 15.2);
    ChunkAxisOfOffset(-2, 15.0);
    ChunkAxisOfOffset(-1, 0.2);
    ChunkAxisOfOffset(0, 0.0);
    ChunkAxisOfOffset(-3, 15.9);
    ChunkAxisOfOffset(1, 4.0);
    ChunkAxisOfOffset(5, 8.1);
  }

  // ---------------------------------------------------------------------
  // Voxel contents.

  /** The kind stored for a valid local coordinate. */
  function KindAt(kinds: ChunkKinds, local: IVec3): Kind
    requires IsWithinBounds(local)
  {
    kinds[ToIndex(local)]
  }

  /** The contents after writing `kind` at `local`. */
  function SetKind(kinds: ChunkKinds, local: IVec3, kind: Kind): (r: ChunkKinds)
    requires IsWithinBounds(local)
    ensures KindAt(r, local) == kind
    ensures forall q :: IsWithinBounds(q) && q != local ==> KindAt(r, q) == KindAt(kinds, q)
  {
    var r := kinds[ToIndex(local) := kind];
    forall q | IsWithinBounds(q) && q != local
      ensures KindAt(r, q) == KindAt(kinds, q)
    {
      if ToIndex(q) == ToIndex(local) {
        ToIndexInjective(q, local);
      }
    }
    r
  }

  /** The contents of a default chunk. */
  function EmptyKinds(): (r: ChunkKinds)
    ensures forall q :: IsWithinBounds(q) ==> KindAt(r, q) == 0
  {
    seq(BUFFER_SIZE, _ => 0)
  }

  /** `Chunk`: a fixed buffer of `BUFFER_SIZE` kinds, read and written in
      place by local coordinate. */
  class Chunk {
    const voxelKind: array<Kind>

    ghost predicate Valid() {
      voxelKind.Length == BUFFER_SIZE
    }

    /** The buffer as a value. */
    function Kinds(): ChunkKinds
      requires Valid()
      reads voxelKind
    {
      voxelKind[..]
    }

    /** `Default`: every voxel has kind 0. */
    constructor ()
      ensures Valid() && fresh(voxelKind)
      ensures Kinds() == EmptyKinds()
    {
      voxelKind := new Kind[BUFFER_SIZE](_ => 0);
    }

    /** `get_voxel_kind` (called `get_kind` by the pipeline). The caller
        guarantees the coordinate is in bounds. */
    function GetVoxelKind(local: IVec3): (k: Kind)
      requires Valid() && IsWithinBounds(local)
      reads voxelKind
      ensures k == KindAt(Kinds(), local)
    {
      voxelKind[ToIndex(local)]
    }

    /** `set_voxel_kind` (called `set_kind` by the pipeline). The caller
        guarantees the coordinate is in bounds. */
    method SetVoxelKind(local: IVec3, kind: Kind)
      requires Valid() && IsWithinBounds(local)
      modifies voxelKind
      ensures Kinds() == SetKind(old(Kinds()), local, kind)
      ensures GetVoxelKind(local) == kind
      ensures forall q :: IsWithinBounds(q) && q != local ==> GetVoxelKind(q) == old(GetVoxelKind(q))
    {
      voxelKind[ToIndex(local)] := kind;
    }
  }
}
