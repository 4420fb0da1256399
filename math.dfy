/** Vector types and the free helpers of `src/world/math.rs`.

    `IVec3` and `Vec3` stand for glam's integer and float 3-vectors.
    Integer components are unbounded here; the only place where the
    source's `i32` range shows is the float-to-int cast, modelled by
    `SaturateI32`. Float components are real numbers (no IEEE-754). */
module Math {

  /** glam's `IVec3`. */
  datatype IVec3 = IVec3(x: int, y: int, z: int) {
    /** Component-wise `+`. */
    function Add(o: IVec3): IVec3 {
      IVec3(x + o.x, y + o.y, z + o.z)
    }
  }

  /** glam's `Vec3`, over the reals. */
  datatype Vec3 = Vec3(x: real, y: real, z: real) {
    /** Component-wise `+`. */
    function Add(o: Vec3): Vec3 {
      Vec3(x + o.x, y + o.y, z + o.z)
    }
  }

  /** `IVec3::splat`. */
  function Splat(v: int): (r: IVec3)
    ensures r.x == v && r.y == v && r.z == v
  {
    IVec3(v, v, v)
  }

  /** `IVec3::as_f32`. */
  function AsF32(v: IVec3): Vec3 {
    Vec3(v.x as real, v.y as real, v.z as real)
  }

  const I32_MIN: int := -0x8000_0000
  const I32_MAX: int := 0x7FFF_FFFF

  predicate IsI32(n: int) {
    I32_MIN <= n <= I32_MAX
  }

  predicate IsI32Vec(v: IVec3) {
    IsI32(v.x) && IsI32(v.y) && IsI32(v.z)
  }

  /** Rust's `as i32` applied to an already integral float: values beyond
      the range of `i32` saturate at its bounds. */
  function SaturateI32(n: int): (r: int)
    ensures IsI32(r)
    ensures IsI32(n) ==> r == n
    ensures n < I32_MIN ==> r == I32_MIN
    ensures n > I32_MAX ==> r == I32_MAX
  {
    if n < I32_MIN then I32_MIN else if n > I32_MAX then I32_MAX else n
  }

  /** `f32::floor` followed by `as i32`. */
  function FloorToI32(c: real): (r: int)
    ensures IsI32(r)
    ensures IsI32(c.Floor) ==> r as real <= c < r as real + 1.0
    ensures c < I32_MIN as real ==> r == I32_MIN
    ensures c >= I32_MAX as real + 1.0 ==> r == I32_MAX
  {
    SaturateI32(c.Floor)
  }

  /** glam's `IVec3::min_element`. */
  function MinComponent(v: IVec3): int {
    var yz := if v.y < v.z then v.y else v.z;
    if v.x < yz then v.x else yz
  }

  /** glam's `IVec3::max_element`. */
  function MaxComponent(v: IVec3): int {
    var yz := if v.y > v.z then v.y else v.z;
    if v.x > yz then v.x else yz
  }

  /** `is_within_cubic_bounds`: the smallest component is at least `min`
      and the largest at most `max`, which is the same as every component
      lying in `[min, max]`. */
  function IsWithinCubicBounds(pos: IVec3, min: int, max: int): (r: bool)
    ensures r <==> (min <= pos.x <= max && min <= pos.y <= max && min <= pos.z <= max)
  {
    MinComponent(pos) >= min && MaxComponent(pos) <= max
  }

  /** `floor`: each component floored and cast to `i32`. */
  function Floor(v: Vec3): (r: IVec3)
    ensures IsI32Vec(r)
    ensures IsI32(v.x.Floor) ==> r.x as real <= v.x < r.x as real + 1.0
    ensures IsI32(v.y.Floor) ==> r.y as real <= v.y < r.y as real + 1.0
    ensures IsI32(v.z.Floor) ==> r.z as real <= v.z < r.z as real + 1.0
  {
    IVec3(FloorToI32(v.x), FloorToI32(v.y), FloorToI32(v.z))
  }

  function AbsInt(n: int): nat {
    if n < 0 then -n else n
  }

  /** `euclid_rem`: `i32::rem_euclid` on each component. Rust panics on a
      zero divisor, hence the precondition. Dafny's `%` is the Euclidean
      remainder for either sign of the divisor, as `rem_euclid` is. Each
      result component lies in `[0, |div|)` and differs from the input
      component by a multiple of `div`. */
  function EuclidRem(v: IVec3, div: int): (r: IVec3)
    requires div != 0
    ensures 0 <= r.x < AbsInt(div) && 0 <= r.y < AbsInt(div) && 0 <= r.z < AbsInt(div)
    ensures v.x - r.x == (v.x / div) * div
    ensures v.y - r.y == (v.y / div) * div
    ensures v.z - r.z == (v.z / div) * div
  {
    IVec3(v.x % div, v.y % div, v.z % div)
  }

  /** Helper of `EuclidRemKeepsReduced`: a reduced value is its own remainder. */
  lemma RemOfReduced(a: int, d: int)
    requires d != 0 && 0 <= a < AbsInt(d)
    ensures a % d == a
  {
  }

  /** A vector whose components already lie in `[0, |div|)` is its own
      remainder. */
  lemma EuclidRemKeepsReduced(v: IVec3, div: int)
    requires div != 0
    requires 0 <= v.x < AbsInt(div) && 0 <= v.y < AbsInt(div) && 0 <= v.z < AbsInt(div)
    ensures EuclidRem(v, div) == v
  {
    RemOfReduced(v.x, div);
    RemOfReduced(v.y, div);
    RemOfReduced(v.z, div);
  }

  /** `Vec3Element`. */
  datatype Vec3Element = X | Y | Z

  function AbsReal(r: real): real {
    if r < 0.0 then -r else r
  }

  /** `min_element`: X when |x| is strictly below both |y| and |z|, else Y
      when |y| is strictly below both |x| and |z|, else Z. */
  function MinElement(v: Vec3): (e: Vec3Element)
    ensures e == X <==> (AbsReal(v.x) < AbsReal(v.y) && AbsReal(v.x) < AbsReal(v.z))
    ensures e == Y <==> (AbsReal(v.y) < AbsReal(v.x) && AbsReal(v.y) < AbsReal(v.z))
  {
    var a := Vec3(AbsReal(v.x), AbsReal(v.y), AbsReal(v.z));
    if a.x < a.y && a.x < a.z then X
    else if a.y < a.x && a.y < a.z then Y
    else Z
  }

  function AbsAlong(v: Vec3, e: Vec3Element): real {
    match e
    case X => AbsReal(v.x)
    case Y => AbsReal(v.y)
    case Z => AbsReal(v.z)
  }

  /** When one axis is strictly smallest in magnitude, it is the one chosen. */
  lemma MinElementStrictMinimum(v: Vec3, e: Vec3Element)
    requires forall o: Vec3Element :: o != e ==> AbsAlong(v, e) < AbsAlong(v, o)
    ensures MinElement(v) == e
  {
    assert e == X ==> AbsAlong(v, e) < AbsAlong(v, Y) && AbsAlong(v, e) < AbsAlong(v, Z);
    assert e == Y ==> AbsAlong(v, e) < AbsAlong(v, X) && AbsAlong(v, e) < AbsAlong(v, Z);
    assert e == Z ==> AbsAlong(v, e) < AbsAlong(v, X) && AbsAlong(v, e) < AbsAlong(v, Y);
  }

  /** Whenever the smallest magnitude is shared by two or more axes
      (all three equal included), the answer is Z, even when Z is not one of
      the tied axes. */
  lemma MinElementTiesYieldZ(v: Vec3)
    requires
      || (AbsReal(v.x) == AbsReal(v.y) && AbsReal(v.x) <= AbsReal(v.z))
      || (AbsReal(v.x) == AbsReal(v.z) && AbsReal(v.x) <= AbsReal(v.y))
      || (AbsReal(v.y) == AbsReal(v.z) && AbsReal(v.y) <= AbsReal(v.x))
    ensures MinElement(v) == Z
  {
  }

  /** A concrete tie below the third axis: `(1, -1, 5)` selects Z although
      |z| is the largest magnitude. */
  lemma MinElementTieBelowZ()
    ensures MinElement(Vec3(1.0, -1.0, 5.0)) == Z
    ensures AbsAlong(Vec3(1.0, -1.0, 5.0), Z) > AbsAlong(Vec3(1.0, -1.0, 5.0), X)
  {
  }
}
