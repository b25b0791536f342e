/** Dual-precision 3D points: the value type every scene node stores its
    geometry in. Both precisions are modelled over `real`; the float/double
    casts between them are not part of this model. */
module Point3D {

  /** A double-precision point (x, y, z). */
  datatype PointDouble3D = PointDouble3D(x: real, y: real, z: real)

  /** A single-precision point (x, y, z). */
  datatype PointFloat3D = PointFloat3D(x: real, y: real, z: real)

  /** The default-constructed double point. */
  function Origin(): (r: PointDouble3D)
    ensures r.x == 0.0 && r.y == 0.0 && r.z == 0.0
  {
    PointDouble3D(0.0, 0.0, 0.0)
  }

  /** `a - b` on double points. */
  function Sub(a: PointDouble3D, b: PointDouble3D): PointDouble3D
  {
    PointDouble3D(a.x - b.x, a.y - b.y, a.z - b.z)
  }

  /** `a + b` on double points; subtracting either operand gives back the other. */
  function Add(a: PointDouble3D, b: PointDouble3D): (r: PointDouble3D)
    ensures Sub(r, b) == a && Sub(r, a) == b
  {
    PointDouble3D(a.x + b.x, a.y + b.y, a.z + b.z)
  }

  /** `a - b` on float points. */
  function SubFloat(a: PointFloat3D, b: PointFloat3D): PointFloat3D
  {
    PointFloat3D(a.x - b.x, a.y - b.y, a.z - b.z)
  }

  /** `a + b` on float points; subtracting either operand gives back the other. */
  function AddFloat(a: PointFloat3D, b: PointFloat3D): (r: PointFloat3D)
    ensures SubFloat(r, b) == a && SubFloat(r, a) == b
  {
    PointFloat3D(a.x + b.x, a.y + b.y, a.z + b.z)
  }

  /** `p` lies in the axis-aligned box from `lo` to `hi`. */
  predicate Within(p: PointDouble3D, lo: PointDouble3D, hi: PointDouble3D)
  {
    lo.x <= p.x <= hi.x && lo.y <= p.y <= hi.y && lo.z <= p.z <= hi.z
  }

  /** Subtraction is undone by adding the subtrahend back. */
  lemma SubAddCancel(a: PointDouble3D, b: PointDouble3D)
    ensures Add(Sub(a, b), b) == a
  {
  }

  /** Addition of double points is componentwise, hence commutative and associative,
      and the origin is its neutral element. */
  lemma AddLaws(a: PointDouble3D, b: PointDouble3D, c: PointDouble3D)
    ensures Add(a, b) == Add(b, a)
    ensures Add(Add(a, b), c) == Add(a, Add(b, c))
    ensures Add(a, Origin()) == a
  {
  }

  /** Subtraction of float points is undone by adding the subtrahend back. */
  lemma SubAddCancelFloat(a: PointFloat3D, b: PointFloat3D)
    ensures AddFloat(SubFloat(a, b), b) == a
  {
  }
}
