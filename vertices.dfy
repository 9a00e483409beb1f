/**
 * The vertex, triangle and billboard-quad records whose arrays the renderer
 * copies verbatim into GPU buffers, and the value-level operations on lists
 * of them: building a triangle, recolouring one element, reading its colour
 * back, and patching one element of an uploaded buffer.
 */
module Vertices {
  import opened Linear

  datatype ColorVertex = ColorVertex(pos: Vec3, norm: Vec3, color: Vec3)
  datatype TextureVertex = TextureVertex(pos: Vec3, norm: Vec3, color: Vec3, tex: Vec2)
  datatype BillboardVertex = BillboardVertex(pos: Vec3, center: Vec3, color: Vec3, tex: Vec2)

  datatype ColorTriangle = ColorTriangle(v0: ColorVertex, v1: ColorVertex, v2: ColorVertex)
  datatype TextureTriangle = TextureTriangle(v0: TextureVertex, v1: TextureVertex, v2: TextureVertex)
  datatype BillboardTriangle = BillboardTriangle(v0: BillboardVertex, v1: BillboardVertex, v2: BillboardVertex)
  datatype BillboardQuad = BillboardQuad(tri1: BillboardTriangle, tri2: BillboardTriangle)

  /**
   * Face normal of glm::triangleNormal, cross(p1 - p2, p1 - p3), before it is
   * scaled to unit length: the right-handed normal of the winding p1, p2, p3,
   * perpendicular to both edges leaving p1.
   */
  function FaceNormal(p1: Vec3, p2: Vec3, p3: Vec3): (n: Vec3)
    ensures n == Cross(Sub(p2, p1), Sub(p3, p1))
    ensures Dot(n, Sub(p2, p1)) == 0.0 && Dot(n, Sub(p3, p1)) == 0.0
  {
    CrossPerpendicular(Sub(p1, p2), Sub(p1, p3));
    Cross(Sub(p1, p2), Sub(p1, p3))
  }

  /** A colour triangle with per-vertex normals, stored exactly as given. */
  function ColorTriangleVNC(p1: Vec3, p2: Vec3, p3: Vec3, n1: Vec3, n2: Vec3, n3: Vec3,
                            c1: Vec3, c2: Vec3, c3: Vec3): (t: ColorTriangle)
    ensures t.v0 == ColorVertex(p1, n1, c1) && t.v1 == ColorVertex(p2, n2, c2) && t.v2 == ColorVertex(p3, n3, c3)
  {
    ColorTriangle(ColorVertex(p1, n1, c1), ColorVertex(p2, n2, c2), ColorVertex(p3, n3, c3))
  }

  /** A flat-shaded colour triangle: all three vertices share the face normal. */
  function ColorTriangleVC(p1: Vec3, p2: Vec3, p3: Vec3, c1: Vec3, c2: Vec3, c3: Vec3): (t: ColorTriangle)
    ensures t.v0.norm == t.v1.norm == t.v2.norm == Cross(Sub(p2, p1), Sub(p3, p1))
    ensures Dot(t.v0.norm, Sub(p2, p1)) == 0.0 && Dot(t.v0.norm, Sub(p3, p1)) == 0.0
    ensures t.v0.pos == p1 && t.v1.pos == p2 && t.v2.pos == p3
    ensures t.v0.color == c1 && t.v1.color == c2 && t.v2.color == c3
  {
    var n := FaceNormal(p1, p2, p3);
    ColorTriangleVNC(p1, p2, p3, n, n, n, c1, c2, c3)
  }

  /** A textured triangle with per-vertex normals; its colour slot is zero. */
  function TextureTriangleVNT(p1: Vec3, p2: Vec3, p3: Vec3, n1: Vec3, n2: Vec3, n3: Vec3,
                              t1: Vec2, t2: Vec2, t3: Vec2): (t: TextureTriangle)
    ensures t.v0 == TextureVertex(p1, n1, Zero3, t1)
    ensures t.v1 == TextureVertex(p2, n2, Zero3, t2)
    ensures t.v2 == TextureVertex(p3, n3, Zero3, t3)
  {
    TextureTriangle(TextureVertex(p1, n1, Zero3, t1), TextureVertex(p2, n2, Zero3, t2), TextureVertex(p3, n3, Zero3, t3))
  }

  /** A flat-shaded textured triangle: one face normal, zero colour. */
  function TextureTriangleVT(p1: Vec3, p2: Vec3, p3: Vec3, t1: Vec2, t2: Vec2, t3: Vec2): (t: TextureTriangle)
    ensures t.v0.norm == t.v1.norm == t.v2.norm == Cross(Sub(p2, p1), Sub(p3, p1))
    ensures Dot(t.v0.norm, Sub(p2, p1)) == 0.0 && Dot(t.v0.norm, Sub(p3, p1)) == 0.0
    ensures t.v0.pos == p1 && t.v1.pos == p2 && t.v2.pos == p3
    ensures t.v0.tex == t1 && t.v1.tex == t2 && t.v2.tex == t3
    ensures t.v0.color == t.v1.color == t.v2.color == Zero3
  {
    var n := FaceNormal(p1, p2, p3);
    TextureTriangleVNT(p1, p2, p3, n, n, n, t1, t2, t3)
  }

  // ----- recolouring one element -----

  function RecolorColorTriangle(t: ColorTriangle, c: Vec3): ColorTriangle
  {
    t.(v0 := t.v0.(color := c), v1 := t.v1.(color := c), v2 := t.v2.(color := c))
  }

  function RecolorTextureTriangle(t: TextureTriangle, c: Vec3): TextureTriangle
  {
    t.(v0 := t.v0.(color := c), v1 := t.v1.(color := c), v2 := t.v2.(color := c))
  }

  function RecolorBillboardTriangle(t: BillboardTriangle, c: Vec3): BillboardTriangle
  {
    t.(v0 := t.v0.(color := c), v1 := t.v1.(color := c), v2 := t.v2.(color := c))
  }

  function RecolorQuad(q: BillboardQuad, c: Vec3): BillboardQuad
  {
    BillboardQuad(RecolorBillboardTriangle(q.tri1, c), RecolorBillboardTriangle(q.tri2, c))
  }

  /** The three colour slots of a colour triangle hold c; nothing else of it changed. */
  ghost predicate RepaintedColorTriangle(before: ColorTriangle, after: ColorTriangle, c: Vec3)
  {
    && after.v0 == ColorVertex(before.v0.pos, before.v0.norm, c)
    && after.v1 == ColorVertex(before.v1.pos, before.v1.norm, c)
    && after.v2 == ColorVertex(before.v2.pos, before.v2.norm, c)
  }

  ghost predicate RepaintedTextureTriangle(before: TextureTriangle, after: TextureTriangle, c: Vec3)
  {
    && after.v0 == TextureVertex(before.v0.pos, before.v0.norm, c, before.v0.tex)
    && after.v1 == TextureVertex(before.v1.pos, before.v1.norm, c, before.v1.tex)
    && after.v2 == TextureVertex(before.v2.pos, before.v2.norm, c, before.v2.tex)
  }

  ghost predicate RepaintedBillboardTriangle(before: BillboardTriangle, after: BillboardTriangle, c: Vec3)
  {
    && after.v0 == BillboardVertex(before.v0.pos, before.v0.center, c, before.v0.tex)
    && after.v1 == BillboardVertex(before.v1.pos, before.v1.center, c, before.v1.tex)
    && after.v2 == BillboardVertex(before.v2.pos, before.v2.center, c, before.v2.tex)
  }

  /**
   * SetColorTriangleColor on the CPU list: an index inside the list has its
   * three vertex colours overwritten, every other element is kept, and an
   * index outside the list changes nothing.
   */
  function PaintColorTriangle(list: seq<ColorTriangle>, i: int, c: Vec3): (r: seq<ColorTriangle>)
    ensures |r| == |list|
    ensures forall j :: 0 <= j < |list| && j != i ==> r[j] == list[j]
    ensures 0 <= i < |list| ==> RepaintedColorTriangle(list[i], r[i], c)
    ensures !(0 <= i < |list|) ==> r == list
  {
    if 0 <= i < |list| then list[i := RecolorColorTriangle(list[i], c)] else list
  }

  /** GLTexture::SetTriangleColor on the CPU list. */
  function PaintTextureTriangle(list: seq<TextureTriangle>, i: int, c: Vec3): (r: seq<TextureTriangle>)
    ensures |r| == |list|
    ensures forall j :: 0 <= j < |list| && j != i ==> r[j] == list[j]
    ensures 0 <= i < |list| ==> RepaintedTextureTriangle(list[i], r[i], c)
    ensures !(0 <= i < |list|) ==> r == list
  {
    if 0 <= i < |list| then list[i := RecolorTextureTriangle(list[i], c)] else list
  }

  /** GLFont::SetPointColor on the CPU list: all six vertices of the marker. */
  function PaintPoint(list: seq<BillboardQuad>, i: int, c: Vec3): (r: seq<BillboardQuad>)
    ensures |r| == |list|
    ensures forall j :: 0 <= j < |list| && j != i ==> r[j] == list[j]
    ensures 0 <= i < |list| ==>
              RepaintedBillboardTriangle(list[i].tri1, r[i].tri1, c) && RepaintedBillboardTriangle(list[i].tri2, r[i].tri2, c)
    ensures !(0 <= i < |list|) ==> r == list
  {
    if 0 <= i < |list| then list[i := RecolorQuad(list[i], c)] else list
  }

  /** The colour read back from vertex 0, or zero when i is outside the list. */
  function ColorTriangleColor(list: seq<ColorTriangle>, i: int): Vec3
  {
    if 0 <= i < |list| then list[i].v0.color else Zero3
  }

  function TextureTriangleColor(list: seq<TextureTriangle>, i: int): Vec3
  {
    if 0 <= i < |list| then list[i].v0.color else Zero3
  }

  function PointColor(list: seq<BillboardQuad>, i: int): Vec3
  {
    if 0 <= i < |list| then list[i].tri1.v0.color else Zero3
  }

  /** Reading back after a repaint gives the painted colour, or zero out of range. */
  lemma PaintThenReadColorTriangle(list: seq<ColorTriangle>, i: int, c: Vec3)
    ensures ColorTriangleColor(PaintColorTriangle(list, i, c), i) == if 0 <= i < |list| then c else Zero3
  {
  }

  lemma PaintThenReadTextureTriangle(list: seq<TextureTriangle>, i: int, c: Vec3)
    ensures TextureTriangleColor(PaintTextureTriangle(list, i, c), i) == if 0 <= i < |list| then c else Zero3
  {
  }

  lemma PaintThenReadPoint(list: seq<BillboardQuad>, i: int, c: Vec3)
    ensures PointColor(PaintPoint(list, i, c), i) == if 0 <= i < |list| then c else Zero3
  {
  }

  /**
   * glBufferSubData of one element: the uploaded buffer takes x at index i when
   * that index lies inside it; outside it the call is rejected and nothing changes.
   */
  function Patched<T>(buffer: seq<T>, i: int, x: T): (r: seq<T>)
    ensures |r| == |buffer|
    ensures 0 <= i < |buffer| ==> r[i] == x
    ensures forall j :: 0 <= j < |buffer| && j != i ==> r[j] == buffer[j]
  {
    if 0 <= i < |buffer| then buffer[i := x] else buffer
  }
}
