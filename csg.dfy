/** The solid-modelling kernel (CadQuery) seen as symbolic terms.

    A `Solid` records the kernel calls that built it; the kernel's geometry is
    not modelled. `Enclosure` gives an axis-aligned extent of a term: exact for
    the primitives, translations, unions and the one rotation the bracket
    uses, and the base's extent for a cut (cutting never adds material, so
    that extent still encloses the result). */
module Csg {
  import opened Wrappers

  datatype Vec3 = Vec3(x: real, y: real, z: real)

  const Origin: Vec3 := Vec3(0.0, 0.0, 0.0)

  /** Direction (1, 1, 0): the end point of the rotation axis used for heat inserts. */
  const Diagonal: Vec3 := Vec3(1.0, 1.0, 0.0)

  datatype Solid =
      /** `Workplane("XY").circle(radius).extrude(height)`: stands on z = 0. */
    | Cylinder(radius: real, height: real)
      /** `Workplane("XY").box(xLength, yLength, zLength)`: centred on the origin. */
    | Box(xLength: real, yLength: real, zLength: real)
      /** `base.cut(tool)` */
    | Cut(base: Solid, tool: Solid)
      /** `base.union(part)` */
    | Union(base: Solid, part: Solid)
      /** `solid.rotate(axisStart, axisEnd, degrees)` */
    | Rotate(solid: Solid, axisStart: Vec3, axisEnd: Vec3, degrees: real)
      /** `solid.translate(offset)` */
    | Translate(solid: Solid, offset: Vec3)

  /** The box `[lo.x, hi.x] x [lo.y, hi.y] x [lo.z, hi.z]`. */
  datatype Extent = Extent(lo: Vec3, hi: Vec3)

  predicate Contains(e: Extent, p: Vec3) {
    e.lo.x <= p.x <= e.hi.x && e.lo.y <= p.y <= e.hi.y && e.lo.z <= p.z <= e.hi.z
  }

  function Add(a: Vec3, b: Vec3): Vec3 {
    Vec3(a.x + b.x, a.y + b.y, a.z + b.z)
  }

  function Dot(a: Vec3, b: Vec3): real {
    a.x * b.x + a.y * b.y + a.z * b.z
  }

  function RMin(a: real, b: real): real { if a <= b then a else b }

  function RMax(a: real, b: real): real { if a <= b then b else a }

  /** The image of point `p` under a half turn (180 degrees) about the line
      through the origin in direction `axis`: 2 (a.p / a.a) a - p. */
  function HalfTurn(axis: Vec3, p: Vec3): Vec3
    requires Dot(axis, axis) != 0.0
  {
    var k := 2.0 * Dot(axis, p) / Dot(axis, axis);
    Vec3(k * axis.x - p.x, k * axis.y - p.y, k * axis.z - p.z)
  }

  /** The half turn about (1, 1, 0) swaps x and y and negates z. */
  lemma HalfTurnAboutDiagonal(p: Vec3)
    ensures HalfTurn(Diagonal, p) == Vec3(p.y, p.x, -p.z)
  {
    assert Dot(Diagonal, Diagonal) == 2.0;
    assert Dot(Diagonal, p) == p.x + p.y;
  }

  /** The half turn about (1, 1, 0) undoes itself. */
  lemma HalfTurnInvolution(p: Vec3)
    ensures HalfTurn(Diagonal, HalfTurn(Diagonal, p)) == p
  {
    HalfTurnAboutDiagonal(p);
    HalfTurnAboutDiagonal(HalfTurn(Diagonal, p));
  }

  function Shift(e: Extent, v: Vec3): Extent {
    Extent(Add(e.lo, v), Add(e.hi, v))
  }

  /** The image of an extent under the half turn about (1, 1, 0). */
  function Turned(e: Extent): Extent {
    Extent(Vec3(e.lo.y, e.lo.x, -e.hi.z), Vec3(e.hi.y, e.hi.x, -e.lo.z))
  }

  /** `Turned` is exact: a point lies in `e` exactly when its half-turn image
      lies in `Turned(e)`, and, the half turn being its own inverse, every
      point of `Turned(e)` is the image of a point of `e`. */
  lemma TurnedIsImage(e: Extent, p: Vec3)
    ensures Contains(e, p) <==> Contains(Turned(e), HalfTurn(Diagonal, p))
    ensures Contains(Turned(e), p) <==> Contains(e, HalfTurn(Diagonal, p))
  {
    HalfTurnAboutDiagonal(p);
  }

  function Hull(a: Extent, b: Extent): Extent {
    Extent(Vec3(RMin(a.lo.x, b.lo.x), RMin(a.lo.y, b.lo.y), RMin(a.lo.z, b.lo.z)),
           Vec3(RMax(a.hi.x, b.hi.x), RMax(a.hi.y, b.hi.y), RMax(a.hi.z, b.hi.z)))
  }

  /** Axis-aligned extent of a solid term, for non-negative dimensions; None
      for a rotation other than the half turn about (1, 1, 0) through the origin. */
  function Enclosure(s: Solid): Option<Extent> {
    match s
    case Cylinder(r, h) => Some(Extent(Vec3(-r, -r, 0.0), Vec3(r, r, h)))
    case Box(a, b, c) => Some(Extent(Vec3(-a / 2.0, -b / 2.0, -c / 2.0), Vec3(a / 2.0, b / 2.0, c / 2.0)))
    case Cut(base, _) => Enclosure(base)
    case Union(base, part) =>
      if Enclosure(base).Some? && Enclosure(part).Some?
      then Some(Hull(Enclosure(base).value, Enclosure(part).value))
      else None
    case Rotate(t, start, end, degrees) =>
      if start == Origin && end == Diagonal && degrees == 180.0 && Enclosure(t).Some?
      then Some(Turned(Enclosure(t).value))
      else None
    case Translate(t, v) =>
      if Enclosure(t).Some? then Some(Shift(Enclosure(t).value, v)) else None
  }
}
