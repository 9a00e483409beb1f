/**
 * PickElement's decision, on the candidate distances of every element:
 * textured triangles unit by unit, then colour triangles, then point markers,
 * all against one running minimum that starts at the far clip distance.
 */
module Picking {
  import opened Linear
  import opened Vertices
  import opened Intersection
  import opened Options
  import opened PickResults

  /** RayTriangle's candidate for each textured triangle, in list order. */
  function TextureTriangleDistances(start: Vec3, dir: Vec3, tris: seq<TextureTriangle>): (ds: seq<Option<real>>)
    ensures |ds| == |tris|
    ensures forall i :: 0 <= i < |tris| ==>
              ds[i] == TriangleDistance(start, dir, tris[i].v0.pos, tris[i].v1.pos, tris[i].v2.pos)
  {
    seq(|tris|, i requires 0 <= i < |tris| =>
      TriangleDistance(start, dir, tris[i].v0.pos, tris[i].v1.pos, tris[i].v2.pos))
  }

  /** RayTriangle's candidate for each colour triangle, in list order. */
  function ColorTriangleDistances(start: Vec3, dir: Vec3, tris: seq<ColorTriangle>): (ds: seq<Option<real>>)
    ensures |ds| == |tris|
    ensures forall i :: 0 <= i < |tris| ==>
              ds[i] == TriangleDistance(start, dir, tris[i].v0.pos, tris[i].v1.pos, tris[i].v2.pos)
  {
    seq(|tris|, i requires 0 <= i < |tris| =>
      TriangleDistance(start, dir, tris[i].v0.pos, tris[i].v1.pos, tris[i].v2.pos))
  }

  /**
   * RayTriangle's determinant is minus the component of the ray direction
   * along the face normal the flat-shaded triangles store.
   */
  lemma DeterminantAlongNormal(dir: Vec3, v0: Vec3, v1: Vec3, v2: Vec3)
    ensures Dot(Sub(v1, v0), Cross(dir, Sub(v2, v0))) == -Dot(dir, FaceNormal(v0, v1, v2))
  {
    Cyclic(Sub(v1, v0), dir, Sub(v2, v0));
    TripleSwap(dir, Sub(v1, v0), Sub(v2, v0));
    Cyclic(dir, Sub(v1, v0), Sub(v2, v0));
  }

  /**
   * A flat-shaded colour triangle at p1, p2, p3 can only be hit by a ray
   * travelling against the normal it stores, by at least EPSILON.
   */
  lemma PickedFlatTriangleFacesRay(start: Vec3, dir: Vec3, p1: Vec3, p2: Vec3, p3: Vec3, c1: Vec3, c2: Vec3, c3: Vec3)
    requires TriangleDistance(start, dir, p1, p2, p3).Some?
    ensures Dot(dir, ColorTriangleVC(p1, p2, p3, c1, c2, c3).v0.norm) <= -EPSILON
  {
    DeterminantAlongNormal(dir, p1, p2, p3);
  }

  /**
   * RaySphere's candidate for each point marker: a sphere of radius pointSize
   * around the centre stored in the marker's first vertex.
   */
  function PointDistances(start: Vec3, dir: Vec3, points: seq<BillboardQuad>, pointSize: real,
                          sqrt: real -> real): (ds: seq<Option<real>>)
    ensures |ds| == |points|
    ensures forall i :: 0 <= i < |points| ==>
              ds[i] == SphereDistance(start, dir, points[i].tri1.v0.center, pointSize, sqrt)
  {
    seq(|points|, i requires 0 <= i < |points| =>
      SphereDistance(start, dir, points[i].tri1.v0.center, pointSize, sqrt))
  }

  /**
   * The texture-unit loop of PickElement: each unit's PickTriangle continues
   * from the running minimum, and a unit that lowers it becomes (mintex, mintri).
   * mintex starts at the "no triangle" sentinel -2.
   */
  function ScanUnits(us: seq<seq<Option<real>>>, m0: real): (res: (int, int, real))
    ensures res.0 == -2 || 0 <= res.0 < |us|
    ensures res.2 <= m0
    decreases |us|
  {
    if us == [] then (-2, -1, m0)
    else
      var (t, i, m) := ScanUnits(us[..|us| - 1], m0);
      var (k, m') := Scan(us[|us| - 1], m);
      if k >= 0 then (|us| - 1, k, m') else (t, i, m')
  }

  /** No unit holds a candidate below m. */
  ghost predicate UnitsNoneBelow(us: seq<seq<Option<real>>>, m: real)
  {
    forall u :: 0 <= u < |us| ==> NoneBelow(us[u], m)
  }

  /** ScanUnits finds the first least candidate in unit-then-triangle order. */
  ghost predicate UnitsFirstMinimum(us: seq<seq<Option<real>>>, m0: real, t: int, i: int, m: real)
  {
    && m <= m0
    && (t == -2 || 0 <= t < |us|)
    && (t == -2 ==> i == -1 && m == m0 && UnitsNoneBelow(us, m0))
    && (t >= 0 ==>
          && 0 <= i < |us[t]| && us[t][i] == Some(m) && m < m0
          && UnitsNoneBelow(us, m)
          && (forall u :: 0 <= u < t ==> NoneAtMost(us[u], |us[u]|, m))
          && NoneAtMost(us[t], i, m))
  }

  lemma NoneBelowWeakens(ds: seq<Option<real>>, m: real, m': real)
    requires NoneBelow(ds, m) && m' <= m
    ensures NoneBelow(ds, m')
  {
  }

  lemma NoneBelowIsNoneAtMost(ds: seq<Option<real>>, m: real, m': real)
    requires NoneBelow(ds, m) && m' < m
    ensures NoneAtMost(ds, |ds|, m')
  {
  }

  lemma {:induction false} ScanUnitsFindsFirstMinimum(us: seq<seq<Option<real>>>, m0: real)
    ensures var (t, i, m) := ScanUnits(us, m0); UnitsFirstMinimum(us, m0, t, i, m)
    decreases |us|
  {
    if us != [] {
      var pre := us[..|us| - 1];
      var last := us[|us| - 1];
      ScanUnitsFindsFirstMinimum(pre, m0);
      var (t, i, m) := ScanUnits(pre, m0);
      ScanFindsFirstMinimum(last, m);
      var (k, m') := Scan(last, m);
      assert forall u :: 0 <= u < |pre| ==> pre[u] == us[u];
      assert UnitsNoneBelow(pre, m);
      if k >= 0 {
        forall u | 0 <= u < |us| ensures NoneBelow(us[u], m') {
          if u < |pre| { NoneBelowWeakens(pre[u], m, m'); }
        }
        forall u | 0 <= u < |us| - 1 ensures NoneAtMost(us[u], |us[u]|, m') {
          NoneBelowIsNoneAtMost(pre[u], m, m');
        }
      }
    }
  }

  /**
   * PickElement without the colour lookup: the running minimum starts at the
   * far plane; textures first, then colour triangles (which replace a texture
   * hit only when strictly closer); the distance is recorded before the point
   * scan; a point strictly closer than the best triangle wins, else COLOR for
   * mintex == -1, TRIANGLE for mintex >= 0, NONE otherwise.
   */
  function Decide(us: seq<seq<Option<real>>>, cs: seq<Option<real>>, ps: seq<Option<real>>, far: real): PickResult
  {
    var (mintex0, mintri0, m1) := ScanUnits(us, far);
    var (kc, m2) := Scan(cs, m1);
    Choose(if kc >= 0 then -1 else mintex0, if kc >= 0 then kc else mintri0, m2, Scan(ps, m2).0)
  }

  /**
   * The final choice of PickElement from the best triangle (mintex, mintri),
   * the distance recorded and the point scan's index kp.
   */
  function Choose(mintex: int, mintri: int, dist: real, kp: int): PickResult
  {
    if kp >= 0 then PickResult(POINT, 0, kp, dist, Zero3)
    else if mintex == -1 then PickResult(COLOR, 0, mintri, dist, Zero3)
    else if mintex >= 0 then PickResult(TRIANGLE, mintex, mintri, dist, Zero3)
    else PickResult(NONE, 0, 0, dist, Zero3)
  }

  /**
   * The steps PickElement takes, each from the previous running minimum,
   * end in the choice Decide makes.
   */
  lemma DecideSteps(us: seq<seq<Option<real>>>, cs: seq<Option<real>>, ps: seq<Option<real>>, far: real,
                    t: int, i: int, m1: real, mintex: int, mintri: int, m2: real, kp: int)
    requires (t, i, m1) == ScanUnits(us, far)
    requires m2 == Scan(cs, m1).1
    requires Scan(cs, m1).0 >= 0 ==> mintex == -1 && mintri == Scan(cs, m1).0
    requires Scan(cs, m1).0 == -1 ==> mintex == t && mintri == i
    requires kp == Scan(ps, m2).0
    ensures Choose(mintex, mintri, m2, kp) == Decide(us, cs, ps, far)
  {
  }

  /** Everything the scans establish, gathered in one place. */
  lemma DecideFacts(us: seq<seq<Option<real>>>, cs: seq<Option<real>>, ps: seq<Option<real>>, far: real)
    ensures var (t, i, m1) := ScanUnits(us, far);
            var (kc, m2) := Scan(cs, m1);
            var (kp, m3) := Scan(ps, m2);
            && UnitsFirstMinimum(us, far, t, i, m1)
            && FirstMinimum(cs, m1, kc, m2)
            && FirstMinimum(ps, m2, kp, m3)
            && Decide(us, cs, ps, far).dist == m2
  {
    ScanUnitsFindsFirstMinimum(us, far);
    var (t, i, m1) := ScanUnits(us, far);
    ScanFindsFirstMinimum(cs, m1);
    var (kc, m2) := Scan(cs, m1);
    ScanFindsFirstMinimum(ps, m2);
  }

  /** NONE exactly when no element of any list has a candidate nearer than the far plane. */
  lemma PickNoneIff(us: seq<seq<Option<real>>>, cs: seq<Option<real>>, ps: seq<Option<real>>, far: real)
    ensures Decide(us, cs, ps, far).kind == NONE
            <==> UnitsNoneBelow(us, far) && NoneBelow(cs, far) && NoneBelow(ps, far)
  {
    DecideFacts(us, cs, ps, far);
    var (t, i, m1) := ScanUnits(us, far);
  }

  /**
   * A POINT result names the first nearest point marker, and that marker is
   * strictly nearer than every triangle; dist holds the best triangle
   * distance (or the far plane), not the point's own distance.
   */
  lemma PickPoint(us: seq<seq<Option<real>>>, cs: seq<Option<real>>, ps: seq<Option<real>>, far: real)
    requires Decide(us, cs, ps, far).kind == POINT
    ensures var r := Decide(us, cs, ps, far);
            && 0 <= r.index < |ps| && Below(ps[r.index], r.dist) && r.dist <= far
            && NoneBelow(ps, ps[r.index].value) && NoneAtMost(ps, r.index, ps[r.index].value)
            && UnitsNoneBelow(us, r.dist) && NoneBelow(cs, r.dist)
  {
    DecideFacts(us, cs, ps, far);
    var (t, i, m1) := ScanUnits(us, far);
    var (kc, m2) := Scan(cs, m1);
    forall u | 0 <= u < |us| ensures NoneBelow(us[u], m2) {
      assert NoneBelow(us[u], m1);
      NoneBelowWeakens(us[u], m1, m2);
    }
  }

  /**
   * A COLOR result names the first nearest colour triangle; it is strictly
   * nearer than every textured triangle (a tie keeps the texture hit) and no
   * point marker beats it.
   */
  lemma PickColor(us: seq<seq<Option<real>>>, cs: seq<Option<real>>, ps: seq<Option<real>>, far: real)
    requires Decide(us, cs, ps, far).kind == COLOR
    ensures var r := Decide(us, cs, ps, far);
            && 0 <= r.index < |cs| && cs[r.index] == Some(r.dist) && r.dist < far
            && NoneBelow(cs, r.dist) && NoneAtMost(cs, r.index, r.dist)
            && (forall u :: 0 <= u < |us| ==> NoneAtMost(us[u], |us[u]|, r.dist))
            && NoneBelow(ps, r.dist)
  {
    DecideFacts(us, cs, ps, far);
    var (t, i, m1) := ScanUnits(us, far);
    var (kc, m2) := Scan(cs, m1);
    forall u | 0 <= u < |us| ensures NoneAtMost(us[u], |us[u]|, m2) {
      assert NoneBelow(us[u], m1);
      NoneBelowIsNoneAtMost(us[u], m1, m2);
    }
  }

  /**
   * A TRIANGLE result names the first nearest textured triangle in
   * unit-then-index order; no colour triangle and no point marker beats it.
   */
  lemma PickTriangle(us: seq<seq<Option<real>>>, cs: seq<Option<real>>, ps: seq<Option<real>>, far: real)
    requires Decide(us, cs, ps, far).kind == TRIANGLE
    ensures var r := Decide(us, cs, ps, far);
            && 0 <= r.group < |us| && 0 <= r.index < |us[r.group]|
            && us[r.group][r.index] == Some(r.dist) && r.dist < far
            && UnitsNoneBelow(us, r.dist)
            && (forall u :: 0 <= u < r.group ==> NoneAtMost(us[u], |us[u]|, r.dist))
            && NoneAtMost(us[r.group], r.index, r.dist)
            && NoneBelow(cs, r.dist) && NoneBelow(ps, r.dist)
  {
    DecideFacts(us, cs, ps, far);
  }
}
