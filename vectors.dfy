/** Three-dimensional vectors over `real` and the periodic-boundary helpers of
    include/readdy/model/Vec3.h.  Floating-point rounding is not modelled. */
module Vectors {

  datatype Vec3 = Vec3(x: real, y: real, z: real) {
    function Plus(o: Vec3): Vec3 { Vec3(x + o.x, y + o.y, z + o.z) }
    function Minus(o: Vec3): Vec3 { Vec3(x - o.x, y - o.y, z - o.z) }
    function Scale(a: real): Vec3 { Vec3(a * x, a * y, a * z) }
  }

  const Zero := Vec3(0.0, 0.0, 0.0)

  /** Which axes of the simulation box are periodic. */
  datatype Periodic = Periodic(px: bool, py: bool, pz: bool)

  /** Edge lengths of the simulation box. */
  datatype Box = Box(dx: real, dy: real, dz: real)

  /** Every periodic axis has a positive edge length. */
  predicate ValidBox(p: Periodic, b: Box) {
    (p.px ==> b.dx > 0.0) && (p.py ==> b.dy > 0.0) && (p.pz ==> b.dz > 0.0)
  }

  /** The scalar product `lhs * rhs`. */
  function Dot(lhs: Vec3, rhs: Vec3): real {
    lhs.x * rhs.x + lhs.y * rhs.y + lhs.z * rhs.z
  }

  lemma DotSymmetric(a: Vec3, b: Vec3)
    ensures Dot(a, b) == Dot(b, a)
  {
  }

  lemma DotSelfNonNegative(a: Vec3)
    ensures Dot(a, a) >= 0.0
  {
    assert a.x * a.x >= 0.0 && a.y * a.y >= 0.0 && a.z * a.z >= 0.0;
  }

  /** One periodic coordinate moved into the box: `c - floor((c + d/2) / d) * d`. */
  function Wrap(c: real, d: real): real
    requires d > 0.0
  {
    c - ((c + 0.5 * d) / d).Floor as real * d
  }

  lemma MulBounds(t: real, d: real)
    requires d > 0.0 && 0.0 <= t < 1.0
    ensures 0.0 <= t * d < d
  {
    assert (1.0 - t) * d > 0.0;
  }

  /** The defining fact of the floor used by `Wrap`: with `q = (c + d/2) / d`
      and `f = floor(q)`, the shift `(q - f) * d` lies in `[0, d)`. */
  lemma WrapShift(c: real, d: real)
    requires d > 0.0
    ensures var f := ((c + 0.5 * d) / d).Floor as real;
            0.0 <= c + 0.5 * d - f * d < d
  {
    var q := (c + 0.5 * d) / d;
    var f := q.Floor as real;
    assert q * d == c + 0.5 * d;
    assert f <= q < f + 1.0;
    var t := q - f;
    MulBounds(t, d);
    assert t * d == q * d - f * d;
    assert c + 0.5 * d - f * d == t * d;
    assert t * d < d;
    assert c + 0.5 * d - f * d < d;
  }

  /** A wrapped coordinate lies in `[-d/2, d/2)` and differs from the input by a
      whole number of box lengths. */
  lemma WrapInRange(c: real, d: real)
    requires d > 0.0
    ensures -0.5 * d <= Wrap(c, d) < 0.5 * d
  {
    WrapShift(c, d);
  }

  /** A coordinate already inside `[-d/2, d/2)` is left alone. */
  lemma WrapFixesInside(c: real, d: real)
    requires d > 0.0 && -0.5 * d <= c < 0.5 * d
    ensures Wrap(c, d) == c
  {
    var q := (c + 0.5 * d) / d;
    assert q * d == c + 0.5 * d;
    assert 0.0 <= q < 1.0;
    assert q.Floor == 0;
  }

  lemma WrapIdempotent(c: real, d: real)
    requires d > 0.0
    ensures Wrap(Wrap(c, d), d) == Wrap(c, d)
  {
    WrapInRange(c, d);
    WrapFixesInside(Wrap(c, d), d);
  }

  /** `applyPBC<PX,PY,PZ>`: the eight specialisations, one per periodicity
      pattern, each wrap exactly the periodic axes of a copy of `v`. */
  function ApplyPBC(v: Vec3, p: Periodic, b: Box): (r: Vec3)
    requires ValidBox(p, b)
  {
    Vec3(if p.px then Wrap(v.x, b.dx) else v.x,
         if p.py then Wrap(v.y, b.dy) else v.y,
         if p.pz then Wrap(v.z, b.dz) else v.z)
  }

  /** A position inside the box on every periodic axis. */
  predicate InBox(v: Vec3, p: Periodic, b: Box) {
    (p.px ==> -0.5 * b.dx <= v.x < 0.5 * b.dx) &&
    (p.py ==> -0.5 * b.dy <= v.y < 0.5 * b.dy) &&
    (p.pz ==> -0.5 * b.dz <= v.z < 0.5 * b.dz)
  }

  /** `applyPBC` lands inside the box, leaves the non-periodic axes alone, and
      `applyPBC<false,false,false>` is the identity. */
  lemma ApplyPBCProperties(v: Vec3, p: Periodic, b: Box)
    requires ValidBox(p, b)
    ensures InBox(ApplyPBC(v, p, b), p, b)
    ensures !p.px ==> ApplyPBC(v, p, b).x == v.x
    ensures !p.py ==> ApplyPBC(v, p, b).y == v.y
    ensures !p.pz ==> ApplyPBC(v, p, b).z == v.z
    ensures !p.px && !p.py && !p.pz ==> ApplyPBC(v, p, b) == v
  {
    if p.px { WrapInRange(v.x, b.dx); }
    if p.py { WrapInRange(v.y, b.dy); }
    if p.pz { WrapInRange(v.z, b.dz); }
  }

  lemma ApplyPBCIdempotent(v: Vec3, p: Periodic, b: Box)
    requires ValidBox(p, b)
    ensures ApplyPBC(ApplyPBC(v, p, b), p, b) == ApplyPBC(v, p, b)
  {
    if p.px { WrapIdempotent(v.x, b.dx); }
    if p.py { WrapIdempotent(v.y, b.dy); }
    if p.pz { WrapIdempotent(v.z, b.dz); }
  }

  /** `fixPosition<PX,PY,PZ>`: wraps the periodic coordinates of `vec` one axis
      after the other, in place; `fixed` is the vector after the call. */
  method FixPosition(vec: Vec3, p: Periodic, b: Box) returns (fixed: Vec3)
    requires ValidBox(p, b)
    ensures fixed == ApplyPBC(vec, p, b)
    ensures InBox(fixed, p, b)
  {
    fixed := vec;
    if p.px {
      fixed := fixed.(x := Wrap(fixed.x, b.dx));
    }
    if p.py {
      fixed := fixed.(y := Wrap(fixed.y, b.dy));
    }
    if p.pz {
      fixed := fixed.(z := Wrap(fixed.z, b.dz));
    }
    ApplyPBCProperties(vec, p, b);
  }

  /** Minimum-image correction of one periodic component `a = r - l`. */
  function Nearest(a: real, d: real): real {
    if a > d * 0.5 then a - d
    else if a <= -d * 0.5 then a + d
    else a
  }

  /** The corrected component differs from the raw one by 0 or one box length,
      and lies in `(-d/2, d/2]` whenever the raw one lies in `(-d, d]`. */
  lemma NearestProperties(a: real, d: real)
    requires d > 0.0
    ensures Nearest(a, d) == a || Nearest(a, d) == a - d || Nearest(a, d) == a + d
    ensures -d < a <= d ==> -0.5 * d < Nearest(a, d) <= 0.5 * d
  {
  }

  /** `shortestDifference<PX,PY,PZ>(lhs, rhs)`: `rhs - lhs` with each periodic
      component corrected to the nearest image. */
  function ShortestDifference(lhs: Vec3, rhs: Vec3, p: Periodic, b: Box): Vec3 {
    var dv := rhs.Minus(lhs);
    Vec3(Component(dv.x, p.px, b.dx), Component(dv.y, p.py, b.dy), Component(dv.z, p.pz, b.dz))
  }

  /** One component of the shortest difference. */
  function Component(a: real, periodic: bool, d: real): real {
    if periodic then Nearest(a, d) else a
  }

  lemma ShortestDifferenceNonPeriodic(lhs: Vec3, rhs: Vec3, b: Box)
    ensures ShortestDifference(lhs, rhs, Periodic(false, false, false), b) == rhs.Minus(lhs)
  {
  }

  /** `distSquared<PX,PY,PZ>`: the squared length of the shortest difference. */
  function DistSquared(lhs: Vec3, rhs: Vec3, p: Periodic, b: Box): (r: real)
    ensures r >= 0.0
  {
    var dv := ShortestDifference(lhs, rhs, p, b);
    DotSelfNonNegative(dv);
    Dot(dv, dv)
  }

  lemma NearestSquareSymmetric(a: real, d: real)
    requires d > 0.0
    ensures Nearest(-a, d) * Nearest(-a, d) == Nearest(a, d) * Nearest(a, d)
  {
    if a > d * 0.5 {
      assert Nearest(-a, d) == -(a - d);
    } else if a <= -d * 0.5 {
      if -a > d * 0.5 { assert Nearest(-a, d) == -(a + d); }
    } else if a < d * 0.5 {
      assert Nearest(-a, d) == -a;
    }
  }

  lemma ComponentSquareSymmetric(a: real, periodic: bool, d: real)
    requires periodic ==> d > 0.0
    ensures Component(-a, periodic, d) * Component(-a, periodic, d) == Component(a, periodic, d) * Component(a, periodic, d)
  {
    if periodic { NearestSquareSymmetric(a, d); }
  }

  lemma DotSelfFromSquares(u: Vec3, w: Vec3)
    requires u.x * u.x == w.x * w.x && u.y * u.y == w.y * w.y && u.z * u.z == w.z * w.z
    ensures Dot(u, u) == Dot(w, w)
  {
  }

  /** The squared distance does not depend on the order of its arguments. */
  lemma DistSquaredSymmetric(l: Vec3, r: Vec3, p: Periodic, b: Box)
    requires ValidBox(p, b)
    ensures DistSquared(l, r, p, b) == DistSquared(r, l, p, b)
  {
    var u := r.Minus(l);
    var w := l.Minus(r);
    assert w.x == -u.x && w.y == -u.y && w.z == -u.z;
    ComponentSquareSymmetric(u.x, p.px, b.dx);
    ComponentSquareSymmetric(u.y, p.py, b.dy);
    ComponentSquareSymmetric(u.z, p.pz, b.dz);
    DotSelfFromSquares(ShortestDifference(l, r, p, b), ShortestDifference(r, l, p, b));
  }
}
