/**
 * GLFont: the bitmap font, the lists of screen-text quads, world-text quads
 * and point markers it has laid out, and the vertex buffers last built from
 * them.
 */
module Fonts {
  import opened Linear
  import opened Vertices
  import opened Intersection
  import opened Picking
  import opened TextLayout

  class Font {
    /** The metrics read from the font's data resource. */
    const metrics: FontMetrics
    /** Half the side of a point marker, and the radius it is picked with. */
    const pointSize: real

    /** quad2DList, quad3DList and pointList */
    var quad2D: seq<BillboardQuad>
    var quad3D: seq<BillboardQuad>
    var points: seq<BillboardQuad>
    /** What the screen-text, world-text and point buffers hold. */
    var buf2D: seq<BillboardQuad>
    var buf3D: seq<BillboardQuad>
    var bufPoints: seq<BillboardQuad>
    var text2DChanged: bool
    var text3DChanged: bool

    /** While a list's flag is clear, its buffer holds exactly the list. */
    ghost predicate Valid()
      reads this
    {
      && (!text2DChanged ==> buf2D == quad2D)
      && (!text3DChanged ==> buf3D == quad3D && bufPoints == points)
    }

    /** A font with no text yet; both rebuilds are pending. */
    constructor (metrics: FontMetrics)
      ensures Valid()
      ensures this.metrics == metrics && pointSize == 0.05
      ensures quad2D == [] && quad3D == [] && points == []
      ensures buf2D == [] && buf3D == [] && bufPoints == []
      ensures text2DChanged && text3DChanged
    {
      this.metrics := metrics;
      pointSize := 0.05;
      quad2D, quad3D, points := [], [], [];
      buf2D, buf3D, bufPoints := [], [], [];
      text2DChanged, text3DChanged := true, true;
    }

    /** The width loop of AddText2D and AddText3D: the summed base widths of str. */
    method MeasureText(str: seq<char>) returns (total: int)
      requires LayoutReady(metrics) && IsAscii(str)
      ensures total == WidthSum(metrics, str)
    {
      total := 0;
      for i := 0 to |str|
        invariant IsAscii(str[..i])
        invariant total == WidthSum(metrics, str[..i])
      {
        WidthSumAppend(metrics, str[..i], str[i]);
        assert str[..i] + [str[i]] == str[..i + 1];
        total := total + metrics.charWidth[str[i] as int];
      }
      assert str[..|str|] == str;
    }

    /**
     * The glyph loop of AddText2D and AddText3D: the quads of str from pen
     * position (x0, y0), each advancing the pen by its scaled width.
     */
    method LayOut(str: seq<char>, x0: real, y0: real, height: real, center: Vec3, color: Vec3)
      returns (quads: seq<BillboardQuad>)
      requires LayoutReady(metrics) && IsAscii(str)
      ensures quads == TextQuads(metrics, str, x0, y0, height, center, color)
    {
      var scalex := ScaleFor(metrics, height);
      var x := x0;
      quads := [];
      for i := 0 to |str|
        invariant IsAscii(str[..i])
        invariant x == PenAt(metrics, str, i, x0, height)
        invariant quads == TextQuads(metrics, str[..i], x0, y0, height, center, color)
      {
        var c := str[i] as int;
        var charwidth := metrics.charWidth[c] as real * scalex;
        var glyph := GlyphQuad(metrics, c, x, y0, height, center, color);
        LayOutStep(metrics, str, i, x0, x, y0, height, center, color);
        PenStep(metrics, str, i, x0, x, charwidth, height);
        quads := quads + [glyph];
        x := x + charwidth;
      }
      assert str[..|str|] == str;
    }

    /**
     * Screen text centred on (centerx, centery): the glyphs of str, placed by
     * the alignment, go to the end of the screen-text list.
     */
    method AddText2D(centerx: real, centery: real, height: real, horiz: TextPos, vert: TextPos, str: seq<char>, color: Vec3)
      requires Valid() && LayoutReady(metrics) && IsAscii(str)
      modifies this
      ensures Valid()
      ensures var start := Start2D(StringSize(metrics, str, height), height, horiz, vert);
              quad2D == old(quad2D) + TextQuads(metrics, str, start.0, start.1, height, Vec3(centerx, centery, 0.0), color)
      ensures text2DChanged
      ensures quad3D == old(quad3D) && points == old(points) && text3DChanged == old(text3DChanged)
      ensures buf2D == old(buf2D) && buf3D == old(buf3D) && bufPoints == old(bufPoints)
    {
      var pos := Vec3(centerx, centery, 0.0);
      var scalex := height / metrics.fontHeight as real;
      var total := MeasureText(str);
      var strsize := total as real * scalex;
      assert strsize == StringSize(metrics, str, height);
      var start := Start2D(strsize, height, horiz, vert);
      var quads := LayOut(str, start.0, start.1, height, pos, color);
      quad2D := quad2D + quads;
      text2DChanged := true;
    }

    /**
     * World text anchored at pos: its glyphs go to the world-text list and,
     * when point is set, a marker around pos to the point list.
     */
    method AddText3D(pos: Vec3, height: real, horiz: TextPos, vert: TextPos, str: seq<char>, color: Vec3, point: bool)
      requires Valid() && LayoutReady(metrics) && IsAscii(str)
      modifies this
      ensures Valid()
      ensures var start := Start3D(StringSize(metrics, str, height), height, horiz, vert, point, pointSize);
              quad3D == old(quad3D) + TextQuads(metrics, str, start.0, start.1, height, pos, color)
      ensures points == old(points) + (if point then [PointQuad(pointSize, pos, color)] else [])
      ensures text3DChanged
      ensures quad2D == old(quad2D) && text2DChanged == old(text2DChanged)
      ensures buf2D == old(buf2D) && buf3D == old(buf3D) && bufPoints == old(bufPoints)
    {
      var scalex := height / metrics.fontHeight as real;
      var total := MeasureText(str);
      var strsize := total as real * scalex;
      assert strsize == StringSize(metrics, str, height);
      var start := Start3D(strsize, height, horiz, vert, point, pointSize);
      var quads := LayOut(str, start.0, start.1, height, pos, color);
      quad3D := quad3D + quads;
      if point {
        points := points + [PointQuad(pointSize, pos, color)];
      }
      text3DChanged := true;
    }

    method ClearText2D()
      requires Valid()
      modifies this
      ensures Valid()
      ensures quad2D == [] && text2DChanged
      ensures quad3D == old(quad3D) && points == old(points) && text3DChanged == old(text3DChanged)
      ensures buf2D == old(buf2D) && buf3D == old(buf3D) && bufPoints == old(bufPoints)
    {
      quad2D := [];
      text2DChanged := true;
    }

    method ClearText3D()
      requires Valid()
      modifies this
      ensures Valid()
      ensures quad3D == [] && points == [] && text3DChanged
      ensures quad2D == old(quad2D) && text2DChanged == old(text2DChanged)
      ensures buf2D == old(buf2D) && buf3D == old(buf3D) && bufPoints == old(bufPoints)
    {
      quad3D := [];
      points := [];
      text3DChanged := true;
    }

    /** The dirty step of Render2D: afterwards the screen-text buffer holds the list. */
    method Render2D()
      requires Valid()
      modifies this
      ensures Valid() && !text2DChanged && buf2D == quad2D
      ensures quad2D == old(quad2D) && quad3D == old(quad3D) && points == old(points)
      ensures buf3D == old(buf3D) && bufPoints == old(bufPoints) && text3DChanged == old(text3DChanged)
    {
      if text2DChanged {
        buf2D := quad2D;
        text2DChanged := false;
      }
    }

    /**
     * The dirty step of Render3D: afterwards the world-text and point buffers
     * hold their lists. The result is whether depth testing is on for the
     * world text, which is exactly depthtext.
     */
    method Render3D(depthtext: bool) returns (depthTest: bool)
      requires Valid()
      modifies this
      ensures depthTest == depthtext
      ensures Valid() && !text3DChanged && buf3D == quad3D && bufPoints == points
      ensures quad2D == old(quad2D) && quad3D == old(quad3D) && points == old(points)
      ensures buf2D == old(buf2D) && text2DChanged == old(text2DChanged)
    {
      depthTest := depthtext;
      if text3DChanged {
        buf3D := quad3D;
        bufPoints := points;
        text3DChanged := false;
      }
    }

    /**
     * The first nearest marker the ray hits below mindist, by the loop of
     * PickPoint, with the lowered minimum.
     */
    method PickPoint(raystart: Vec3, raydir: Vec3, mindist: real, sqrt: real -> real) returns (minp: int, newMin: real)
      ensures (minp, newMin) == Scan(PointDistances(raystart, raydir, points, pointSize, sqrt), mindist)
      ensures FirstMinimum(PointDistances(raystart, raydir, points, pointSize, sqrt), mindist, minp, newMin)
    {
      ghost var ds := PointDistances(raystart, raydir, points, pointSize, sqrt);
      minp, newMin := -1, mindist;
      for p := 0 to |points|
        invariant (minp, newMin) == Scan(ds[..p], mindist)
      {
        var circle := points[p].tri1.v0.center;
        var hit, m := RaySphere(raystart, raydir, circle, pointSize, newMin, sqrt);
        assert ds[..p + 1][..p] == ds[..p];
        if hit {
          minp, newMin := p, m;
        }
      }
      assert ds[..|points|] == ds;
      ScanFindsFirstMinimum(ds, mindist);
    }

    /** Recolours all six vertices of marker point and patches the point buffer. */
    method SetPointColor(point: int, color: Vec3)
      requires Valid()
      modifies this
      ensures Valid()
      ensures points == PaintPoint(old(points), point, color)
      ensures 0 <= point < |old(points)| ==> bufPoints == Patched(old(bufPoints), point, points[point])
      ensures !(0 <= point < |old(points)|) ==> bufPoints == old(bufPoints)
      ensures quad2D == old(quad2D) && quad3D == old(quad3D) && buf2D == old(buf2D) && buf3D == old(buf3D)
      ensures text2DChanged == old(text2DChanged) && text3DChanged == old(text3DChanged)
    {
      if point < 0 || point >= |points| {
        return;
      }
      points := PaintPoint(points, point, color);
      bufPoints := Patched(bufPoints, point, points[point]);
    }

    /** The colour of marker point, or zero outside the list. */
    function GetPointColor(point: int): (c: Vec3)
      reads this
      ensures 0 <= point < |points| ==> c == points[point].tri1.v0.color
      ensures !(0 <= point < |points|) ==> c == Zero3
    {
      PointColor(points, point)
    }
  }
}
