/**
 * The two intersection tests of the picking code and the running-minimum scan
 * they drive. Distances are exact reals; the floating-point rounding of the
 * source is not modelled.
 */
module Intersection {
  import opened Linear
  import opened Options


  /** The parallel-ray threshold of RayTriangle. */
  const EPSILON: real := 0.0000001

  /** The degenerate-direction threshold of RaySphere. */
  const TINY: real := 0.00000000000000000001

  /**
   * The distance RayTriangle computes (Moller-Trumbore with inverse
   * determinant), or None when it returns false before comparing with the
   * running minimum: the determinant is below EPSILON (the ray is parallel to
   * the plane, or meets the triangle's back face), or a barycentric coordinate
   * lies outside the triangle.
   */
  function TriangleDistance(start: Vec3, dir: Vec3, v0: Vec3, v1: Vec3, v2: Vec3): Option<real>
  {
    var e1 := Sub(v1, v0);
    var e2 := Sub(v2, v0);
    var pvec := Cross(dir, e2);
    var tvec := Sub(start, v0);
    var qvec := Cross(tvec, e1);
    Barycentric(Dot(e1, pvec), Dot(tvec, pvec), Dot(dir, qvec), Dot(e2, qvec))
  }

  /**
   * The scalar steps of RayTriangle on the determinant det and the numerators
   * un, vn, tn of u, v and t: reject a small determinant, then u outside
   * [0, 1], then v below 0 or u + v above 1; otherwise the distance.
   */
  function Barycentric(det: real, un: real, vn: real, tn: real): Option<real>
  {
    if det < EPSILON then None
    else
      var invdet := 1.0 / det;
      var u := un * invdet;
      if u < 0.0 || u > 1.0 then None
      else
        var v := vn * invdet;
        if v < 0.0 || u + v > 1.0 then None
        else Some(tn * invdet)
  }

  /** The polynomial identity behind Cramer's rule for the ray/triangle system. */
  lemma CramerIdentity(d: Vec3, e1: Vec3, e2: Vec3, t: Vec3)
    ensures var det := Dot(e1, Cross(d, e2));
            var un := Dot(t, Cross(d, e2));
            var vn := Dot(d, Cross(t, e1));
            var tn := Dot(e2, Cross(t, e1));
            && det * t.x + tn * d.x == un * e1.x + vn * e2.x
            && det * t.y + tn * d.y == un * e1.y + vn * e2.y
            && det * t.z + tn * d.z == un * e1.z + vn * e2.z
  {
    CramerX(d, e1, e2, t);
    CramerY(d, e1, e2, t);
    CramerZ(d, e1, e2, t);
  }

  /** The coordinates of CramerIdentity, one lemma each. */
  lemma CramerX(d: Vec3, e1: Vec3, e2: Vec3, t: Vec3)
    ensures Dot(e1, Cross(d, e2)) * t.x + Dot(e2, Cross(t, e1)) * d.x
            == Dot(t, Cross(d, e2)) * e1.x + Dot(d, Cross(t, e1)) * e2.x
  {
  }

  lemma CramerY(d: Vec3, e1: Vec3, e2: Vec3, t: Vec3)
    ensures Dot(e1, Cross(d, e2)) * t.y + Dot(e2, Cross(t, e1)) * d.y
            == Dot(t, Cross(d, e2)) * e1.y + Dot(d, Cross(t, e1)) * e2.y
  {
  }

  lemma CramerZ(d: Vec3, e1: Vec3, e2: Vec3, t: Vec3)
    ensures Dot(e1, Cross(d, e2)) * t.z + Dot(e2, Cross(t, e1)) * d.z
            == Dot(t, Cross(d, e2)) * e1.z + Dot(d, Cross(t, e1)) * e2.z
  {
  }

  /**
   * A hit at distance t is a true intersection: the point start + t * dir is the
   * point of the triangle with barycentric coordinates (1 - u - v, u, v), all
   * three of them non-negative.
   */
  lemma TriangleHitIsOnTriangle(start: Vec3, dir: Vec3, v0: Vec3, v1: Vec3, v2: Vec3)
    requires TriangleDistance(start, dir, v0, v1, v2).Some?
    ensures exists u: real, v: real ::
              && 0.0 <= u && 0.0 <= v && u + v <= 1.0
              && Add(start, Scale(TriangleDistance(start, dir, v0, v1, v2).value, dir))
                 == Add(v0, Add(Scale(u, Sub(v1, v0)), Scale(v, Sub(v2, v0))))
  {
    var u, v, invdet := TriangleHitCoordinates(start, dir, v0, v1, v2);
    CramerSolves(start, dir, v0, Sub(v1, v0), Sub(v2, v0), invdet, TriangleDistance(start, dir, v0, v1, v2).value, u, v);
  }

  /** The barycentric coordinates and inverse determinant behind a hit, and their ranges. */
  lemma TriangleHitCoordinates(start: Vec3, dir: Vec3, v0: Vec3, v1: Vec3, v2: Vec3) returns (u: real, v: real, invdet: real)
    requires TriangleDistance(start, dir, v0, v1, v2).Some?
    ensures var e1, e2, tv := Sub(v1, v0), Sub(v2, v0), Sub(start, v0);
            && Dot(e1, Cross(dir, e2)) * invdet == 1.0
            && TriangleDistance(start, dir, v0, v1, v2).value == Dot(e2, Cross(tv, e1)) * invdet
            && u == Dot(tv, Cross(dir, e2)) * invdet
            && v == Dot(dir, Cross(tv, e1)) * invdet
    ensures 0.0 <= u && 0.0 <= v && u + v <= 1.0
  {
    var e1, e2, tv := Sub(v1, v0), Sub(v2, v0), Sub(start, v0);
    var det := Dot(e1, Cross(dir, e2));
    invdet := 1.0 / det;
    u, v := Dot(tv, Cross(dir, e2)) * invdet, Dot(dir, Cross(tv, e1)) * invdet;
  }

  /**
   * For a non-zero determinant, the distance and barycentric coordinates the
   * test computes solve start + t * dir == v0 + u * e1 + v * e2.
   */
  lemma CramerSolves(start: Vec3, dir: Vec3, v0: Vec3, e1: Vec3, e2: Vec3, invdet: real, t: real, u: real, v: real)
    requires Dot(e1, Cross(dir, e2)) * invdet == 1.0
    requires t == Dot(e2, Cross(Sub(start, v0), e1)) * invdet
    requires u == Dot(Sub(start, v0), Cross(dir, e2)) * invdet
    requires v == Dot(dir, Cross(Sub(start, v0), e1)) * invdet
    ensures Add(start, Scale(t, dir)) == Add(v0, Add(Scale(u, e1), Scale(v, e2)))
  {
    var tv := Sub(start, v0);
    CramerIdentity(dir, e1, e2, tv);
    SolveScaled(start, dir, v0, tv, e1, e2, Dot(e1, Cross(dir, e2)), invdet,
                Dot(e2, Cross(tv, e1)), Dot(tv, Cross(dir, e2)), Dot(dir, Cross(tv, e1)), t, u, v);
  }

  /** ScaledEquation on all three coordinates, then the vector equation. */
  lemma SolveScaled(start: Vec3, dir: Vec3, v0: Vec3, tv: Vec3, e1: Vec3, e2: Vec3, det: real, invdet: real,
                    tn: real, un: real, vn: real, t: real, u: real, v: real)
    requires tv == Sub(start, v0)
    requires det * invdet == 1.0
    requires t == tn * invdet && u == un * invdet && v == vn * invdet
    requires det * tv.x + tn * dir.x == un * e1.x + vn * e2.x
    requires det * tv.y + tn * dir.y == un * e1.y + vn * e2.y
    requires det * tv.z + tn * dir.z == un * e1.z + vn * e2.z
    ensures Add(start, Scale(t, dir)) == Add(v0, Add(Scale(u, e1), Scale(v, e2)))
  {
    ScaledEquation(det, invdet, tv.x, t, dir.x, u, e1.x, v, e2.x, tn, un, vn);
    ScaledEquation(det, invdet, tv.y, t, dir.y, u, e1.y, v, e2.y, tn, un, vn);
    ScaledEquation(det, invdet, tv.z, t, dir.z, u, e1.z, v, e2.z, tn, un, vn);
    OnTriangleFromComponents(start, dir, v0, e1, e2, t, u, v);
  }

  /** Componentwise start - v0 + t * dir == u * e1 + v * e2 gives the vector equation. */
  lemma OnTriangleFromComponents(start: Vec3, dir: Vec3, v0: Vec3, e1: Vec3, e2: Vec3, t: real, u: real, v: real)
    requires (start.x - v0.x) + t * dir.x == u * e1.x + v * e2.x
    requires (start.y - v0.y) + t * dir.y == u * e1.y + v * e2.y
    requires (start.z - v0.z) + t * dir.z == u * e1.z + v * e2.z
    ensures Add(start, Scale(t, dir)) == Add(v0, Add(Scale(u, e1), Scale(v, e2)))
  {
    Rearrange(start.x, v0.x, t * dir.x, u * e1.x + v * e2.x);
    Rearrange(start.y, v0.y, t * dir.y, u * e1.y + v * e2.y);
    Rearrange(start.z, v0.z, t * dir.z, u * e1.z + v * e2.z);
  }

  lemma Rearrange(s: real, w: real, a: real, b: real)
    requires (s - w) + a == b
    ensures s + a == w + b
  {
  }

  /** Dividing det * a + tn * b == un * c + vn * e through by det. */
  lemma ScaledEquation(det: real, invdet: real, a: real, t: real, b: real, u: real, c: real, v: real, e: real,
                       tn: real, un: real, vn: real)
    requires det * invdet == 1.0
    requires t == tn * invdet && u == un * invdet && v == vn * invdet
    requires det * a + tn * b == un * c + vn * e
    ensures a + t * b == u * c + v * e
  {
    calc {
      a + t * b;
      (det * invdet) * a + (tn * invdet) * b;
      invdet * (det * a + tn * b);
      invdet * (un * c + vn * e);
      u * c + v * e;
    }
  }

  /**
   * The converse of TriangleHitIsOnTriangle: when the ray meets the front face
   * (determinant at least EPSILON) at start + t * dir with barycentric
   * coordinates (1 - u - v, u, v) all non-negative, the test reports exactly t.
   */
  lemma TriangleIntersectionIsHit(start: Vec3, dir: Vec3, v0: Vec3, v1: Vec3, v2: Vec3, t: real, u: real, v: real)
    requires Dot(Sub(v1, v0), Cross(dir, Sub(v2, v0))) >= EPSILON
    requires 0.0 <= u && 0.0 <= v && u + v <= 1.0
    requires Add(start, Scale(t, dir)) == Add(v0, Add(Scale(u, Sub(v1, v0)), Scale(v, Sub(v2, v0))))
    ensures TriangleDistance(start, dir, v0, v1, v2) == Some(t)
  {
    var e1, e2, tv := Sub(v1, v0), Sub(v2, v0), Sub(start, v0);
    EdgeCombination(start, dir, v0, e1, e2, t, u, v);
    CramerU(dir, e1, e2, tv, t, u, v);
    CramerV(dir, e1, e2, tv, t, u, v);
    CramerT(dir, e1, e2, tv, t, u, v);
    BarycentricHit(Dot(e1, Cross(dir, e2)), Dot(tv, Cross(dir, e2)), Dot(dir, Cross(tv, e1)), Dot(e2, Cross(tv, e1)), u, v, t);
  }

  /** Quotients u and v in range pass every check, and the distance is the third quotient. */
  lemma BarycentricHit(det: real, un: real, vn: real, tn: real, u: real, v: real, t: real)
    requires det >= EPSILON && un * (1.0 / det) == u && vn * (1.0 / det) == v && tn * (1.0 / det) == t
    requires 0.0 <= u && 0.0 <= v && u + v <= 1.0
    ensures Barycentric(det, un, vn, tn) == Some(t)
  {
  }

  /** The ray equation solved for start - v0. */
  lemma EdgeCombination(start: Vec3, dir: Vec3, v0: Vec3, e1: Vec3, e2: Vec3, t: real, u: real, v: real)
    requires Add(start, Scale(t, dir)) == Add(v0, Add(Scale(u, e1), Scale(v, e2)))
    ensures Sub(start, v0) == Vec3(u * e1.x + v * e2.x - t * dir.x, u * e1.y + v * e2.y - t * dir.y,
                                   u * e1.z + v * e2.z - t * dir.z)
  {
  }

  /**
   * Cramer's rule read backwards on tv == u * e1 + v * e2 - t * d: triple
   * products with a repeated vector vanish, so each numerator is its
   * coordinate times the determinant, and over the determinant gives the
   * coordinate back.
   */
  lemma CramerU(d: Vec3, e1: Vec3, e2: Vec3, tv: Vec3, t: real, u: real, v: real)
    requires Dot(e1, Cross(d, e2)) != 0.0
    requires tv == Vec3(u * e1.x + v * e2.x - t * d.x, u * e1.y + v * e2.y - t * d.y, u * e1.z + v * e2.z - t * d.z)
    ensures Dot(tv, Cross(d, e2)) * (1.0 / Dot(e1, Cross(d, e2))) == u
  {
    DotCombination(tv, e1, e2, d, u, v, t, Cross(d, e2));
    CrossPerpendicular(d, e2);
    Unscale(Dot(tv, Cross(d, e2)), u, Dot(e1, Cross(d, e2)));
  }

  lemma CramerV(d: Vec3, e1: Vec3, e2: Vec3, tv: Vec3, t: real, u: real, v: real)
    requires Dot(e1, Cross(d, e2)) != 0.0
    requires tv == Vec3(u * e1.x + v * e2.x - t * d.x, u * e1.y + v * e2.y - t * d.y, u * e1.z + v * e2.z - t * d.z)
    ensures Dot(d, Cross(tv, e1)) * (1.0 / Dot(e1, Cross(d, e2))) == v
  {
    Cyclic(d, tv, e1);
    DotCombination(tv, e1, e2, d, u, v, t, Cross(e1, d));
    CrossPerpendicular(e1, d);
    Cyclic(e2, e1, d);
    Unscale(Dot(d, Cross(tv, e1)), v, Dot(e1, Cross(d, e2)));
  }

  lemma CramerT(d: Vec3, e1: Vec3, e2: Vec3, tv: Vec3, t: real, u: real, v: real)
    requires Dot(e1, Cross(d, e2)) != 0.0
    requires tv == Vec3(u * e1.x + v * e2.x - t * d.x, u * e1.y + v * e2.y - t * d.y, u * e1.z + v * e2.z - t * d.z)
    ensures Dot(e2, Cross(tv, e1)) * (1.0 / Dot(e1, Cross(d, e2))) == t
  {
    Cyclic(e2, tv, e1);
    DotCombination(tv, e1, e2, d, u, v, t, Cross(e1, e2));
    CrossPerpendicular(e1, e2);
    Cyclic(d, e1, e2);
    TripleSwap(d, e2, e1);
    Unscale(Dot(e2, Cross(tv, e1)), t, Dot(e1, Cross(d, e2)));
  }

  /** The scalar triple product is invariant under cyclic permutation. */
  lemma Cyclic(a: Vec3, b: Vec3, c: Vec3)
    ensures Dot(a, Cross(b, c)) == Dot(b, Cross(c, a))
  {
  }

  /** The dot product is linear in its first argument. */
  lemma DotCombination(w: Vec3, a: Vec3, b: Vec3, c: Vec3, u: real, v: real, t: real, x: Vec3)
    requires w == Vec3(u * a.x + v * b.x - t * c.x, u * a.y + v * b.y - t * c.y, u * a.z + v * b.z - t * c.z)
    ensures Dot(w, x) == u * Dot(a, x) + v * Dot(b, x) - t * Dot(c, x)
  {
  }

  lemma Unscale(n: real, x: real, det: real)
    requires det != 0.0 && n == x * det
    ensures n * (1.0 / det) == x
  {
    assert n * (1.0 / det) == x * (det * (1.0 / det));
  }

  /**
   * The test is one-sided: a triangle that the ray hits is missed once its
   * winding is reversed, because the determinant changes sign.
   */
  lemma ReversedWindingMisses(start: Vec3, dir: Vec3, v0: Vec3, v1: Vec3, v2: Vec3)
    requires TriangleDistance(start, dir, v0, v1, v2).Some?
    ensures TriangleDistance(start, dir, v0, v2, v1) == None
  {
    var e1, e2 := Sub(v1, v0), Sub(v2, v0);
    TripleSwap(dir, e1, e2);
    assert Dot(e1, Cross(dir, e2)) >= EPSILON;
  }

  /**
   * A ray cast straight down through the centroid of the triangle (0,0,0),
   * (3,0,0), (0,3,0) from height h hits it at distance h, the perpendicular
   * distance from the start to the triangle's plane.
   */
  lemma CentroidHit(h: real)
    ensures TriangleDistance(Vec3(1.0, 1.0, h), Vec3(0.0, 0.0, -1.0),
                             Vec3(0.0, 0.0, 0.0), Vec3(3.0, 0.0, 0.0), Vec3(0.0, 3.0, 0.0)) == Some(h)
  {
    CentroidScalars(h);
    CentroidCoordinates(h);
  }

  /** The determinant and numerators of the downward ray through the centroid. */
  lemma CentroidScalars(h: real)
    ensures TriangleDistance(Vec3(1.0, 1.0, h), Vec3(0.0, 0.0, -1.0),
                             Vec3(0.0, 0.0, 0.0), Vec3(3.0, 0.0, 0.0), Vec3(0.0, 3.0, 0.0))
         == Barycentric(9.0, 3.0, 3.0, 9.0 * h)
  {
    assert TriangleDistance(Vec3(1.0, 1.0, h), Vec3(0.0, 0.0, -1.0),
                            Vec3(0.0, 0.0, 0.0), Vec3(3.0, 0.0, 0.0), Vec3(0.0, 3.0, 0.0))
        == Barycentric(9.0, 3.0, 3.0, 9.0 * h);
  }

  /** The centroid's coordinates u == v == 1/3 pass the range checks. */
  lemma CentroidCoordinates(h: real)
    ensures Barycentric(9.0, 3.0, 3.0, 9.0 * h) == Some(h)
  {
    assert (9.0 * h) * (1.0 / 9.0) == h;
    BarycentricHit(9.0, 3.0, 3.0, 9.0 * h, 1.0 / 3.0, 1.0 / 3.0, h);
  }

  /** Swapping the two edges of the scalar triple product negates it. */
  lemma TripleSwap(d: Vec3, a: Vec3, b: Vec3)
    ensures Dot(b, Cross(d, a)) == -Dot(a, Cross(d, b))
  {
  }

  /** The coefficients a, b, c of RaySphere's quadratic a*t*t + b*t + c. */
  function SphereCoefficients(origin: Vec3, dir: Vec3, center: Vec3, radius: real): (real, real, real)
  {
    var a := dir.x * dir.x + dir.y * dir.y + dir.z * dir.z;
    var b := 2.0 * (dir.x * (origin.x - center.x) + dir.y * (origin.y - center.y) + dir.z * (origin.z - center.z));
    var c := center.x * center.x + center.y * center.y + center.z * center.z
           + (origin.x * origin.x + origin.y * origin.y + origin.z * origin.z)
           - 2.0 * (center.x * origin.x + center.y * origin.y + center.z * origin.z)
           - radius * radius;
    (a, b, c)
  }

  function Abs(x: real): real { if x < 0.0 then -x else x }

  function Discriminant(origin: Vec3, dir: Vec3, center: Vec3, radius: real): real
  {
    var (a, b, c) := SphereCoefficients(origin, dir, center, radius);
    b * b - 4.0 * a * c
  }

  /**
   * The distance RaySphere computes: None for a degenerate direction or a
   * negative discriminant, otherwise the smaller of the two roots, whatever
   * its sign. `sqrt` stands for the C library square root.
   */
  function SphereDistance(origin: Vec3, dir: Vec3, center: Vec3, radius: real, sqrt: real -> real): Option<real>
  {
    var (a, b, c) := SphereCoefficients(origin, dir, center, radius);
    var bb4ac := Discriminant(origin, dir, center, radius);
    if Abs(a) < TINY || bb4ac < 0.0 then None
    else
      var mu1 := (-b + sqrt(bb4ac)) / (2.0 * a);
      var mu2 := (-b - sqrt(bb4ac)) / (2.0 * a);
      Some(if mu1 < mu2 then mu1 else mu2)
  }

  /**
   * With an exact square root, a hit at distance t puts origin + t * dir on
   * the sphere: its distance from the centre is the radius.
   */
  lemma SphereHitIsOnSphere(origin: Vec3, dir: Vec3, center: Vec3, radius: real, sqrt: real -> real, t: real)
    requires SphereDistance(origin, dir, center, radius, sqrt) == Some(t)
    requires sqrt(Discriminant(origin, dir, center, radius)) * sqrt(Discriminant(origin, dir, center, radius))
             == Discriminant(origin, dir, center, radius)
    ensures var p := Sub(Add(origin, Scale(t, dir)), center);
            Dot(p, p) == radius * radius
  {
    SphereDistanceIsRoot(origin, dir, center, radius, sqrt, t);
    SphereExpansion(origin, dir, center, radius, t);
  }

  /** With an exact square root, the distance RaySphere computes is a root of its quadratic. */
  lemma SphereDistanceIsRoot(origin: Vec3, dir: Vec3, center: Vec3, radius: real, sqrt: real -> real, t: real)
    requires SphereDistance(origin, dir, center, radius, sqrt) == Some(t)
    requires sqrt(Discriminant(origin, dir, center, radius)) * sqrt(Discriminant(origin, dir, center, radius))
             == Discriminant(origin, dir, center, radius)
    ensures var (a, b, c) := SphereCoefficients(origin, dir, center, radius);
            a * t * t + b * t + c == 0.0
  {
    var abc := SphereCoefficients(origin, dir, center, radius);
    var a, b, c := abc.0, abc.1, abc.2;
    var s := sqrt(Discriminant(origin, dir, center, radius));
    assert Discriminant(origin, dir, center, radius) == b * b - 4.0 * a * c;
    var mu1, mu2 := (-b + s) / (2.0 * a), (-b - s) / (2.0 * a);
    assert t == if mu1 < mu2 then mu1 else mu2;
    assert Abs(a) >= TINY;
    QuadraticRoot(a, b, c, s, t);
  }

  /** |origin + t * dir - center|^2 - radius^2 is RaySphere's quadratic at t. */
  lemma SphereExpansion(origin: Vec3, dir: Vec3, center: Vec3, radius: real, t: real)
    ensures var (a, b, c) := SphereCoefficients(origin, dir, center, radius);
            var p := Sub(Add(origin, Scale(t, dir)), center);
            Dot(p, p) - radius * radius == a * t * t + b * t + c
  {
    var p := Sub(Add(origin, Scale(t, dir)), center);
    var abc := SphereCoefficients(origin, dir, center, radius);
    PointCoordinates(origin, dir, center, t);
    CoefficientsWrittenOut(origin, dir, center, radius);
    ExpansionIdentity(origin.x, origin.y, origin.z, dir.x, dir.y, dir.z, center.x, center.y, center.z, radius, t,
                      p.x, p.y, p.z, abc.0, abc.1, abc.2);
  }

  lemma PointCoordinates(origin: Vec3, dir: Vec3, center: Vec3, t: real)
    ensures var p := Sub(Add(origin, Scale(t, dir)), center);
            p.x == origin.x + t * dir.x - center.x && p.y == origin.y + t * dir.y - center.y
            && p.z == origin.z + t * dir.z - center.z
  {
  }

  lemma CoefficientsWrittenOut(origin: Vec3, dir: Vec3, center: Vec3, radius: real)
    ensures var abc := SphereCoefficients(origin, dir, center, radius);
            && abc.0 == dir.x * dir.x + dir.y * dir.y + dir.z * dir.z
            && abc.1 == 2.0 * (dir.x * (origin.x - center.x) + dir.y * (origin.y - center.y) + dir.z * (origin.z - center.z))
            && abc.2 == center.x * center.x + center.y * center.y + center.z * center.z
                        + (origin.x * origin.x + origin.y * origin.y + origin.z * origin.z)
                        - 2.0 * (center.x * origin.x + center.y * origin.y + center.z * origin.z) - radius * radius
  {
  }

  /** SphereExpansion written out on the coordinates. */
  lemma ExpansionIdentity(o1: real, o2: real, o3: real, d1: real, d2: real, d3: real,
                          c1: real, c2: real, c3: real, r: real, t: real,
                          p1: real, p2: real, p3: real, a: real, b: real, c: real)
    requires p1 == o1 + t * d1 - c1 && p2 == o2 + t * d2 - c2 && p3 == o3 + t * d3 - c3
    requires a == d1 * d1 + d2 * d2 + d3 * d3
    requires b == 2.0 * (d1 * (o1 - c1) + d2 * (o2 - c2) + d3 * (o3 - c3))
    requires c == c1 * c1 + c2 * c2 + c3 * c3 + (o1 * o1 + o2 * o2 + o3 * o3)
                  - 2.0 * (c1 * o1 + c2 * o2 + c3 * o3) - r * r
    ensures p1 * p1 + p2 * p2 + p3 * p3 - r * r == a * t * t + b * t + c
  {
  }

  /** Both values of the quadratic formula are roots. */
  lemma QuadraticRoot(a: real, b: real, c: real, s: real, t: real)
    requires a != 0.0 && s * s == b * b - 4.0 * a * c
    requires t == (-b + s) / (2.0 * a) || t == (-b - s) / (2.0 * a)
    ensures a * t * t + b * t + c == 0.0
  {
    var k := if t == (-b + s) / (2.0 * a) then s else -s;
    assert k * k == s * s;
    assert 2.0 * a * t == -b + k;
    calc {
      4.0 * a * (a * t * t + b * t + c);
      (2.0 * a * t) * (2.0 * a * t) + 2.0 * b * (2.0 * a * t) + 4.0 * a * c;
      (-b + k) * (-b + k) + 2.0 * b * (-b + k) + 4.0 * a * c;
      k * k - b * b + 4.0 * a * c;
      0.0;
    }
  }

  /**
   * The converse of SphereHitIsOnSphere: with an exact square root (of either
   * sign) and a non-degenerate direction, a point origin + t * dir on the
   * sphere is found, and the distance reported is t or the other, smaller root.
   */
  lemma SphereHitIsFound(origin: Vec3, dir: Vec3, center: Vec3, radius: real, sqrt: real -> real, t: real)
    requires Dot(dir, dir) >= TINY
    requires sqrt(Discriminant(origin, dir, center, radius)) * sqrt(Discriminant(origin, dir, center, radius))
             == Discriminant(origin, dir, center, radius)
    requires var p := Sub(Add(origin, Scale(t, dir)), center);
             Dot(p, p) == radius * radius
    ensures SphereDistance(origin, dir, center, radius, sqrt).Some?
    ensures SphereDistance(origin, dir, center, radius, sqrt).value <= t
  {
    var abc := SphereCoefficients(origin, dir, center, radius);
    var a, b, c := abc.0, abc.1, abc.2;
    var s := sqrt(Discriminant(origin, dir, center, radius));
    SphereExpansion(origin, dir, center, radius, t);
    assert a == Dot(dir, dir);
    RootIsFound(a, b, c, s, t);
  }

  /** A root t of a*t*t + b*t + c with a != 0 is one of the two values of the quadratic formula. */
  lemma RootIsFound(a: real, b: real, c: real, s: real, t: real)
    requires a != 0.0 && a * t * t + b * t + c == 0.0 && s * s == b * b - 4.0 * a * c
    ensures b * b - 4.0 * a * c >= 0.0
    ensures t == (-b + s) / (2.0 * a) || t == (-b - s) / (2.0 * a)
  {
    CompletedSquare(a, b, c, t);
    SquareRoots(s, 2.0 * a * t + b);
    EitherRoot(a, b, s, t);
  }

  /** A square root s of (2at + b)^2 makes t one of the two values of the quadratic formula. */
  lemma EitherRoot(a: real, b: real, s: real, t: real)
    requires a != 0.0 && (s == 2.0 * a * t + b || s == -(2.0 * a * t + b))
    ensures t == (-b + s) / (2.0 * a) || t == (-b - s) / (2.0 * a)
  {
    if s == 2.0 * a * t + b {
      Quotient(-b + s, t, 2.0 * a);
    } else {
      Quotient(-b - s, t, 2.0 * a);
    }
  }

  /** At a root t, the discriminant is the square of 2at + b. */
  lemma CompletedSquare(a: real, b: real, c: real, t: real)
    requires a * t * t + b * t + c == 0.0
    ensures b * b - 4.0 * a * c == (2.0 * a * t + b) * (2.0 * a * t + b)
  {
    assert (2.0 * a * t + b) * (2.0 * a * t + b) == 4.0 * a * (a * t * t + b * t) + b * b;
  }

  /** Two reals with the same square are equal or opposite. */
  lemma SquareRoots(x: real, y: real)
    requires x * x == y * y
    ensures x == y || x == -y
  {
    assert (x - y) * (x + y) == 0.0;
  }

  lemma Quotient(n: real, x: real, d: real)
    requires d != 0.0 && n == x * d
    ensures n / d == x
  {
  }

  /**
   * With a non-degenerate direction, RaySphere reports a distance exactly
   * when the line's closest approach to the centre, at the parameter t0, is no
   * farther than the radius.
   */
  lemma SphereHitIffClose(origin: Vec3, dir: Vec3, center: Vec3, radius: real, sqrt: real -> real)
    requires Dot(dir, dir) >= TINY
    ensures var t0 := Dot(Sub(center, origin), dir) / Dot(dir, dir);
            var p0 := Sub(Add(origin, Scale(t0, dir)), center);
            SphereDistance(origin, dir, center, radius, sqrt).Some? <==> Dot(p0, p0) <= radius * radius
  {
    var abc := SphereCoefficients(origin, dir, center, radius);
    var a, b, c := abc.0, abc.1, abc.2;
    var t0 := Dot(Sub(center, origin), dir) / Dot(dir, dir);
    var p0 := Sub(Add(origin, Scale(t0, dir)), center);
    ClosestParameter(origin, dir, center, radius);
    SphereExpansion(origin, dir, center, radius, t0);
    VertexValue(a, b, c, t0);
    assert Discriminant(origin, dir, center, radius) == b * b - 4.0 * a * c;
  }

  /** The closest-approach parameter is the vertex -b / (2a) of RaySphere's quadratic. */
  lemma ClosestParameter(origin: Vec3, dir: Vec3, center: Vec3, radius: real)
    requires Dot(dir, dir) >= TINY
    ensures var abc := SphereCoefficients(origin, dir, center, radius);
            && abc.0 == Dot(dir, dir)
            && Dot(Sub(center, origin), dir) / Dot(dir, dir) == -abc.1 / (2.0 * abc.0)
  {
    var abc := SphereCoefficients(origin, dir, center, radius);
    assert abc.1 == -2.0 * Dot(Sub(center, origin), dir);
  }

  /**
   * At the vertex t0 == -b / (2a) the quadratic takes the value
   * -(b*b - 4ac) / 4a, so for a > 0 the discriminant is non-negative exactly
   * when that value is not positive.
   */
  lemma VertexValue(a: real, b: real, c: real, t0: real)
    requires a > 0.0 && t0 == -b / (2.0 * a)
    ensures b * b - 4.0 * a * c >= 0.0 <==> a * t0 * t0 + b * t0 + c <= 0.0
  {
    assert 2.0 * a * t0 == -b;
    var y := a * t0 * t0 + b * t0 + c;
    assert 4.0 * a * y == (2.0 * a * t0) * (2.0 * a * t0) + 2.0 * b * (2.0 * a * t0) + 4.0 * a * c;
    assert 4.0 * a * y == -(b * b - 4.0 * a * c);
    if y <= 0.0 {
      assert 4.0 * a * y <= 0.0;
    } else {
      assert 4.0 * a * y > 0.0;
    }
  }

  /**
   * A ray from the origin straight at the centre of a unit sphere five units
   * away meets it at distance 4, the centre's distance minus the radius.
   */
  lemma SphereThroughCentre(sqrt: real -> real)
    requires sqrt(4.0) * sqrt(4.0) == 4.0
    ensures SphereDistance(Vec3(0.0, 0.0, 0.0), Vec3(0.0, 0.0, -1.0), Vec3(0.0, 0.0, -5.0), 1.0, sqrt) == Some(4.0)
  {
    assert SphereCoefficients(Vec3(0.0, 0.0, 0.0), Vec3(0.0, 0.0, -1.0), Vec3(0.0, 0.0, -5.0), 1.0) == (1.0, -10.0, 24.0);
    SquareRoots(sqrt(4.0), 2.0);
  }

  /** A ray passing three units from the centre of a unit sphere misses it. */
  lemma SphereMissedFarAway(sqrt: real -> real)
    ensures SphereDistance(Vec3(0.0, 0.0, 0.0), Vec3(0.0, 0.0, -1.0), Vec3(3.0, 0.0, -5.0), 1.0, sqrt) == None
  {
    assert SphereCoefficients(Vec3(0.0, 0.0, 0.0), Vec3(0.0, 0.0, -1.0), Vec3(3.0, 0.0, -5.0), 1.0) == (1.0, -10.0, 33.0);
  }

  /** A sphere wholly behind the ray origin is still hit, at a negative distance. */
  lemma SphereBehindOriginHits(sqrt: real -> real)
    requires sqrt(4.0) == 2.0
    ensures SphereDistance(Vec3(0.0, 0.0, 0.0), Vec3(0.0, 0.0, 1.0), Vec3(0.0, 0.0, -5.0), 1.0, sqrt) == Some(-6.0)
  {
    assert SphereCoefficients(Vec3(0.0, 0.0, 0.0), Vec3(0.0, 0.0, 1.0), Vec3(0.0, 0.0, -5.0), 1.0) == (1.0, 10.0, 24.0);
  }

  // ----- the running minimum -----

  /** A candidate distance that beats m. */
  predicate Below(d: Option<real>, m: real) { d.Some? && d.value < m }

  /** A candidate distance that beats or ties m. */
  predicate AtMost(d: Option<real>, m: real) { d.Some? && d.value <= m }

  /** Every candidate in ds is missing or at least m. */
  ghost predicate NoneBelow(ds: seq<Option<real>>, m: real)
  {
    forall j :: 0 <= j < |ds| ==> !Below(ds[j], m)
  }

  /** Every candidate among the first n of ds is missing or greater than m. */
  ghost predicate NoneAtMost(ds: seq<Option<real>>, n: int, m: real)
    requires n <= |ds|
  {
    forall j :: 0 <= j < n ==> !AtMost(ds[j], m)
  }

  /**
   * What a scan that starts from the bound m0 and keeps the last strict
   * improvement finds, stated without the scan: either nothing beats m0
   * (k == -1, m == m0), or ds[k] == Some(m) is the least candidate, below m0,
   * and k is the first index attaining it.
   */
  ghost predicate FirstMinimum(ds: seq<Option<real>>, m0: real, k: int, m: real)
  {
    && -1 <= k < |ds|
    && m <= m0
    && (k == -1 ==> m == m0 && NoneBelow(ds, m0))
    && (k >= 0 ==> ds[k] == Some(m) && m < m0 && NoneBelow(ds, m) && NoneAtMost(ds, k, m))
  }

  /**
   * The loop of PickTriangle, PickPoint and the colour-triangle loop of
   * PickElement: visit the candidates in order, and whenever one is strictly
   * below the running minimum, lower the minimum to it and remember its index.
   */
  function Scan(ds: seq<Option<real>>, m0: real): (res: (int, real))
    ensures -1 <= res.0 < |ds|
    ensures res.1 <= m0
    ensures res.0 == -1 <==> res.1 == m0
    decreases |ds|
  {
    if ds == [] then (-1, m0)
    else
      var (k, m) := Scan(ds[..|ds| - 1], m0);
      if Below(ds[|ds| - 1], m) then (|ds| - 1, ds[|ds| - 1].value) else (k, m)
  }

  lemma {:induction false} ScanFindsFirstMinimum(ds: seq<Option<real>>, m0: real)
    ensures FirstMinimum(ds, m0, Scan(ds, m0).0, Scan(ds, m0).1)
    decreases |ds|
  {
    if ds != [] {
      var pre := ds[..|ds| - 1];
      var last := ds[|ds| - 1];
      ScanFindsFirstMinimum(pre, m0);
      var (k, m) := Scan(pre, m0);
      assert forall j :: 0 <= j < |pre| ==> pre[j] == ds[j];
      if Below(last, m) {
        assert forall j :: 0 <= j < |pre| ==> !Below(pre[j], m);
      }
    }
  }

  /** The characterisation determines the scan's result: nothing else satisfies it. */
  lemma FirstMinimumIsUnique(ds: seq<Option<real>>, m0: real, k: int, m: real, k': int, m': real)
    requires FirstMinimum(ds, m0, k, m) && FirstMinimum(ds, m0, k', m')
    ensures k == k' && m == m'
  {
  }

  /**
   * RayTriangle's by-reference update: it reports a hit exactly when the
   * distance beats the running minimum, negative distances included, and then
   * lowers the minimum to it.
   */
  method RayTriangle(raystart: Vec3, raydir: Vec3, v0: Vec3, v1: Vec3, v2: Vec3, mindist: real)
    returns (hit: bool, newMin: real)
    ensures hit <==> Below(TriangleDistance(raystart, raydir, v0, v1, v2), mindist)
    ensures hit ==> newMin == TriangleDistance(raystart, raydir, v0, v1, v2).value
    ensures !hit ==> newMin == mindist
    ensures newMin <= mindist
  {
    var d := TriangleDistance(raystart, raydir, v0, v1, v2);
    hit, newMin := false, mindist;
    if d.Some? && d.value < mindist {
      hit, newMin := true, d.value;
    }
  }

  /** RaySphere's by-reference update, with the same contract shape. */
  method RaySphere(rayorigin: Vec3, raydir: Vec3, sphere: Vec3, radius: real, mindist: real, sqrt: real -> real)
    returns (hit: bool, newMin: real)
    ensures hit <==> Below(SphereDistance(rayorigin, raydir, sphere, radius, sqrt), mindist)
    ensures hit ==> newMin == SphereDistance(rayorigin, raydir, sphere, radius, sqrt).value
    ensures !hit ==> newMin == mindist
    ensures newMin <= mindist
  {
    var d := SphereDistance(rayorigin, raydir, sphere, radius, sqrt);
    hit, newMin := false, mindist;
    if d.Some? && d.value < mindist {
      hit, newMin := true, d.value;
    }
  }
}
