/**
 * TOpenGLWindow: the colour triangles with their vertex buffer, the texture
 * units, the default font, the camera and the render switches, and the
 * operations that add to, clear, render, pick and recolour them.
 */
module Windows {
  import opened Linear
  import opened Vertices
  import opened Options
  import opened Intersection
  import opened PickResults
  import opened Picking
  import opened Pixels
  import opened Textures
  import opened TextLayout
  import opened Fonts

  class Window {
    /** colorList and the contents of the colour vertex buffer. */
    var colorList: seq<ColorTriangle>
    var colorBuffer: seq<ColorTriangle>
    /** Set when colour triangles were added and the buffer must be rebuilt. */
    var dataChanged: bool
    /** textureList: one unit per texture, addressed by the index AddTexture returned. */
    var textures: seq<Texture>
    /** defaultFont */
    const font: Font
    var cameraPos: Vec3
    var cameraLookat: Vec3
    var cameraUp: Vec3
    /** The far clip distance, which is also where picking starts its search. */
    const cameraFar: real
    var backFaceCull: bool
    var depthText: bool

    /**
     * While no rebuild is pending the colour triangles drawn are the list;
     * every unit and the font keep their own invariants; units are distinct.
     */
    ghost predicate Valid()
      reads this, font, textures
    {
      && (!dataChanged ==> |colorList| <= |colorBuffer| && colorBuffer[..|colorList|] == colorList)
      && font.Valid()
      && (forall i :: 0 <= i < |textures| ==> textures[i].Valid())
      && (forall i, j :: 0 <= i < j < |textures| ==> textures[i] != textures[j])
    }

    /** The window's defaults: camera at (0, 0, 5) looking at the origin, culling on, depth-tested text off. */
    constructor (metrics: FontMetrics)
      ensures Valid() && fresh(font)
      ensures colorList == [] && colorBuffer == [] && dataChanged && textures == []
      ensures cameraPos == Vec3(0.0, 0.0, 5.0) && cameraLookat == Zero3 && cameraUp == Vec3(0.0, 1.0, 0.0)
      ensures cameraFar == 100.0 && backFaceCull && !depthText
      ensures font.metrics == metrics && font.quad2D == [] && font.quad3D == [] && font.points == []
    {
      colorList, colorBuffer, dataChanged := [], [], true;
      textures := [];
      font := new Font(metrics);
      cameraPos := Vec3(0.0, 0.0, 5.0);
      cameraLookat := Zero3;
      cameraUp := Vec3(0.0, 1.0, 0.0);
      cameraFar := 100.0;
      backFaceCull, depthText := true, false;
    }

    /** Drops every texture unit. */
    method ClearTextures()
      requires Valid()
      modifies this
      ensures Valid() && textures == []
      ensures colorList == old(colorList) && colorBuffer == old(colorBuffer) && dataChanged == old(dataChanged)
      ensures cameraPos == old(cameraPos) && cameraLookat == old(cameraLookat) && cameraUp == old(cameraUp)
      ensures backFaceCull == old(backFaceCull) && depthText == old(depthText)
    {
      textures := [];
    }

    /**
     * Empties the colour list and every unit's triangle list; no rebuild flag
     * is set, and the units themselves stay.
     */
    method ClearData()
      requires Valid()
      modifies this, textures
      ensures Valid()
      ensures colorList == [] && colorBuffer == old(colorBuffer) && dataChanged == old(dataChanged)
      ensures textures == old(textures)
      ensures forall i :: 0 <= i < |textures| ==>
                textures[i].triangles == [] && textures[i].changed == old(textures[i].changed)
                && textures[i].uploaded == old(textures[i].uploaded)
                && textures[i].textureID == old(textures[i].textureID) && textures[i].image == old(textures[i].image)
      ensures cameraPos == old(cameraPos) && cameraLookat == old(cameraLookat) && cameraUp == old(cameraUp)
      ensures backFaceCull == old(backFaceCull) && depthText == old(depthText)
    {
      colorList := [];
      for i := 0 to |textures|
        invariant Valid() && colorList == [] && colorBuffer == old(colorBuffer) && dataChanged == old(dataChanged)
        invariant cameraPos == old(cameraPos) && cameraLookat == old(cameraLookat) && cameraUp == old(cameraUp)
        invariant backFaceCull == old(backFaceCull) && depthText == old(depthText)
        invariant textures == old(textures)
        invariant forall j :: 0 <= j < i ==> textures[j].triangles == []
        invariant forall j :: i <= j < |textures| ==> textures[j].triangles == old(textures[j].triangles)
        invariant forall j :: 0 <= j < |textures| ==>
                    textures[j].changed == old(textures[j].changed) && textures[j].uploaded == old(textures[j].uploaded)
                    && textures[j].textureID == old(textures[j].textureID) && textures[j].image == old(textures[j].image)
      {
        textures[i].ClearTriangles();
      }
    }

    /**
     * AddTexture for a bitmap: a new unit loaded from it goes to the end of the
     * list, and its index is returned (with the loader's outcome).
     */
    method AddTexture(bmp: Bitmap, mapped: bool, glName: nat, glFailed: bool) returns (index: int, status: LoadStatus)
      requires Valid()
      requires glName != 0 && (mapped ==> WellMapped(bmp))
      modifies this
      ensures Valid()
      ensures index == |old(textures)| && |textures| == index + 1 && textures[..index] == old(textures)
      ensures fresh(textures[index])
      ensures textures[index].triangles == [] && textures[index].changed
      ensures LoadOutcome(bmp, mapped, glName, glFailed, status, textures[index].textureID, textures[index].image, None)
      ensures colorList == old(colorList) && colorBuffer == old(colorBuffer) && dataChanged == old(dataChanged)
      ensures cameraPos == old(cameraPos) && cameraLookat == old(cameraLookat) && cameraUp == old(cameraUp)
      ensures backFaceCull == old(backFaceCull) && depthText == old(depthText)
    {
      var tex := new Texture();
      var deletesBitmap;
      status, deletesBitmap := tex.LoadTextureFromBitmap(bmp, mapped, glName, glFailed);
      textures := textures + [tex];
      index := |textures| - 1;
    }

    /** AddTexture for a file: file is the bitmap read from it, None when it could not be opened. */
    method AddTextureFromFile(file: Option<Bitmap>, mapped: bool, glName: nat, glFailed: bool) returns (index: int, status: LoadStatus)
      requires Valid()
      requires glName != 0 && (file.Some? && mapped ==> WellMapped(file.value))
      modifies this
      ensures Valid()
      ensures index == |old(textures)| && |textures| == index + 1 && textures[..index] == old(textures)
      ensures fresh(textures[index])
      ensures textures[index].triangles == [] && textures[index].changed
      ensures status == OpenFailed <==> file == None
      ensures file == None ==> textures[index].textureID == 0 && textures[index].image == None
      ensures file.Some? ==>
                LoadOutcome(file.value, mapped, glName, glFailed, status, textures[index].textureID, textures[index].image, None)
      ensures colorList == old(colorList) && colorBuffer == old(colorBuffer) && dataChanged == old(dataChanged)
      ensures cameraPos == old(cameraPos) && cameraLookat == old(cameraLookat) && cameraUp == old(cameraUp)
      ensures backFaceCull == old(backFaceCull) && depthText == old(depthText)
    {
      var tex := new Texture();
      var deletes;
      status, deletes := tex.LoadTextureFromFile(file, mapped, glName, glFailed);
      textures := textures + [tex];
      index := |textures| - 1;
    }

    /** A flat-shaded colour triangle goes to the end of the colour list; the buffer must be rebuilt. */
    method AddTriangleVC(p1: Vec3, p2: Vec3, p3: Vec3, c1: Vec3, c2: Vec3, c3: Vec3)
      requires Valid()
      modifies this
      ensures Valid()
      ensures colorList == old(colorList) + [ColorTriangleVC(p1, p2, p3, c1, c2, c3)] && dataChanged
      ensures colorBuffer == old(colorBuffer) && textures == old(textures)
      ensures cameraPos == old(cameraPos) && cameraLookat == old(cameraLookat) && cameraUp == old(cameraUp)
      ensures backFaceCull == old(backFaceCull) && depthText == old(depthText)
    {
      colorList := colorList + [ColorTriangleVC(p1, p2, p3, c1, c2, c3)];
      dataChanged := true;
    }

    /** A colour triangle with per-vertex normals goes to the end of the colour list. */
    method AddTriangleVNC(p1: Vec3, p2: Vec3, p3: Vec3, n1: Vec3, n2: Vec3, n3: Vec3, c1: Vec3, c2: Vec3, c3: Vec3)
      requires Valid()
      modifies this
      ensures Valid()
      ensures colorList == old(colorList) + [ColorTriangleVNC(p1, p2, p3, n1, n2, n3, c1, c2, c3)] && dataChanged
      ensures colorBuffer == old(colorBuffer) && textures == old(textures)
      ensures cameraPos == old(cameraPos) && cameraLookat == old(cameraLookat) && cameraUp == old(cameraUp)
      ensures backFaceCull == old(backFaceCull) && depthText == old(depthText)
    {
      colorList := colorList + [ColorTriangleVNC(p1, p2, p3, n1, n2, n3, c1, c2, c3)];
      dataChanged := true;
    }

    /** A flat-shaded textured triangle goes to unit texid, which must exist. */
    method AddTriangleVT(p1: Vec3, p2: Vec3, p3: Vec3, t1: Vec2, t2: Vec2, t3: Vec2, texid: int)
      requires Valid() && 0 <= texid < |textures|
      modifies textures[texid]
      ensures Valid()
      ensures textures[texid].triangles == old(textures[texid].triangles) + [TextureTriangleVT(p1, p2, p3, t1, t2, t3)]
      ensures textures[texid].changed
      ensures textures[texid].uploaded == old(textures[texid].uploaded)
      ensures textures[texid].textureID == old(textures[texid].textureID) && textures[texid].image == old(textures[texid].image)
    {
      textures[texid].AddTriangleVT(p1, p2, p3, t1, t2, t3);
    }

    /** A textured triangle with per-vertex normals goes to unit texid, which must exist. */
    method AddTriangleVNT(p1: Vec3, p2: Vec3, p3: Vec3, n1: Vec3, n2: Vec3, n3: Vec3, t1: Vec2, t2: Vec2, t3: Vec2, texid: int)
      requires Valid() && 0 <= texid < |textures|
      modifies textures[texid]
      ensures Valid()
      ensures textures[texid].triangles == old(textures[texid].triangles) + [TextureTriangleVNT(p1, p2, p3, n1, n2, n3, t1, t2, t3)]
      ensures textures[texid].changed
      ensures textures[texid].uploaded == old(textures[texid].uploaded)
      ensures textures[texid].textureID == old(textures[texid].textureID) && textures[texid].image == old(textures[texid].image)
    {
      textures[texid].AddTriangleVNT(p1, p2, p3, n1, n2, n3, t1, t2, t3);
    }

    /** Screen text through the default font; an empty string adds nothing. */
    method AddText2D(x: real, y: real, height: real, horiz: TextPos, vert: TextPos, str: seq<char>, color: Vec3)
      requires Valid() && LayoutReady(font.metrics) && IsAscii(str)
      modifies font
      ensures Valid()
      ensures str == [] ==> font.quad2D == old(font.quad2D) && font.text2DChanged == old(font.text2DChanged)
      ensures str != [] ==> font.text2DChanged
      ensures str != [] ==>
                var start := Start2D(StringSize(font.metrics, str, height), height, horiz, vert);
                font.quad2D == old(font.quad2D) + TextQuads(font.metrics, str, start.0, start.1, height, Vec3(x, y, 0.0), color)
      ensures font.quad3D == old(font.quad3D) && font.points == old(font.points)
      ensures font.text3DChanged == old(font.text3DChanged)
      ensures font.buf2D == old(font.buf2D) && font.buf3D == old(font.buf3D) && font.bufPoints == old(font.bufPoints)
    {
      if |str| == 0 {
        return;
      }
      font.AddText2D(x, y, height, horiz, vert, str, color);
    }

    /** World text through the default font, with a marker at pos when point is set. */
    method AddText3D(pos: Vec3, height: real, horiz: TextPos, vert: TextPos, str: seq<char>, color: Vec3, point: bool)
      requires Valid() && LayoutReady(font.metrics) && IsAscii(str)
      modifies font
      ensures Valid() && font.text3DChanged
      ensures var start := Start3D(StringSize(font.metrics, str, height), height, horiz, vert, point, font.pointSize);
              font.quad3D == old(font.quad3D) + TextQuads(font.metrics, str, start.0, start.1, height, pos, color)
      ensures font.points == old(font.points) + (if point then [PointQuad(font.pointSize, pos, color)] else [])
      ensures font.quad2D == old(font.quad2D) && font.text2DChanged == old(font.text2DChanged)
      ensures font.buf2D == old(font.buf2D) && font.buf3D == old(font.buf3D) && font.bufPoints == old(font.bufPoints)
    {
      font.AddText3D(pos, height, horiz, vert, str, color, point);
    }

    method ClearText2D()
      requires Valid()
      modifies font
      ensures Valid() && font.quad2D == [] && font.text2DChanged
      ensures font.quad3D == old(font.quad3D) && font.points == old(font.points)
      ensures font.text3DChanged == old(font.text3DChanged)
      ensures font.buf2D == old(font.buf2D) && font.buf3D == old(font.buf3D) && font.bufPoints == old(font.bufPoints)
    {
      font.ClearText2D();
    }

    method ClearText3D()
      requires Valid()
      modifies font
      ensures Valid() && font.quad3D == [] && font.points == [] && font.text3DChanged
      ensures font.quad2D == old(font.quad2D) && font.text2DChanged == old(font.text2DChanged)
      ensures font.buf2D == old(font.buf2D) && font.buf3D == old(font.buf3D) && font.bufPoints == old(font.bufPoints)
    {
      font.ClearText3D();
    }

    /**
     * The state changes of Render: every pending rebuild is done, after which
     * every buffer draws exactly its list. The results are the face-culling
     * switch and the depth-test switch for world text that this frame uses.
     */
    method Render() returns (cull: bool, depthTested: bool)
      requires Valid()
      modifies this, textures, font
      ensures Valid()
      ensures cull == backFaceCull && depthTested == depthText
      ensures backFaceCull == old(backFaceCull) && depthText == old(depthText)
      ensures cameraPos == old(cameraPos) && cameraLookat == old(cameraLookat) && cameraUp == old(cameraUp)
      ensures colorList == old(colorList) && textures == old(textures)
      ensures !dataChanged && |colorList| <= |colorBuffer| && colorBuffer[..|colorList|] == colorList
      ensures colorBuffer == if old(dataChanged) then colorList else old(colorBuffer)
      ensures forall i :: 0 <= i < |textures| ==> !textures[i].changed && textures[i].Drawn() == textures[i].triangles
      ensures forall i :: 0 <= i < |textures| ==>
                textures[i].uploaded == (if old(textures[i].changed) then textures[i].triangles else old(textures[i].uploaded))
                && textures[i].textureID == old(textures[i].textureID) && textures[i].image == old(textures[i].image)
      ensures !font.text2DChanged && !font.text3DChanged
      ensures font.buf2D == font.quad2D && font.buf3D == font.quad3D && font.bufPoints == font.points
      ensures forall i :: 0 <= i < |textures| ==> textures[i].triangles == old(textures[i].triangles)
      ensures font.quad2D == old(font.quad2D) && font.quad3D == old(font.quad3D) && font.points == old(font.points)
    {
      cull := backFaceCull;
      if dataChanged {
        colorBuffer := colorList;
        dataChanged := false;
      }
      RenderTextures();
      depthTested := font.Render3D(depthText);
      font.Render2D();
    }

    /** The texture-unit loop of Render: each unit does its pending rebuild. */
    method RenderTextures()
      requires forall i :: 0 <= i < |textures| ==> textures[i].Valid()
      requires forall i, j :: 0 <= i < j < |textures| ==> textures[i] != textures[j]
      modifies textures
      ensures forall i :: 0 <= i < |textures| ==>
                textures[i].Valid() && !textures[i].changed && textures[i].Drawn() == textures[i].triangles
      ensures forall i :: 0 <= i < |textures| ==> textures[i].triangles == old(textures[i].triangles)
      ensures forall i :: 0 <= i < |textures| ==>
                textures[i].uploaded == (if old(textures[i].changed) then textures[i].triangles else old(textures[i].uploaded))
                && textures[i].textureID == old(textures[i].textureID) && textures[i].image == old(textures[i].image)
    {
      for i := 0 to |textures|
        invariant forall j :: 0 <= j < |textures| ==> textures[j].Valid()
        invariant forall j :: 0 <= j < i ==> !textures[j].changed && textures[j].Drawn() == textures[j].triangles
        invariant forall j :: 0 <= j < |textures| ==> textures[j].triangles == old(textures[j].triangles)
        invariant forall j :: 0 <= j < i ==>
                    textures[j].uploaded == (if old(textures[j].changed) then textures[j].triangles else old(textures[j].uploaded))
        invariant forall j :: i <= j < |textures| ==>
                    textures[j].uploaded == old(textures[j].uploaded) && textures[j].changed == old(textures[j].changed)
        invariant forall j :: 0 <= j < |textures| ==>
                    textures[j].textureID == old(textures[j].textureID) && textures[j].image == old(textures[j].image)
      {
        textures[i].Render();
      }
    }

    method BackFaceCull(docull: bool)
      modifies this
      ensures backFaceCull == docull && depthText == old(depthText)
      ensures colorList == old(colorList) && colorBuffer == old(colorBuffer) && dataChanged == old(dataChanged)
      ensures textures == old(textures)
      ensures cameraPos == old(cameraPos) && cameraLookat == old(cameraLookat) && cameraUp == old(cameraUp)
    {
      backFaceCull := docull;
    }

    method DepthText(dt: bool)
      modifies this
      ensures depthText == dt && backFaceCull == old(backFaceCull)
      ensures colorList == old(colorList) && colorBuffer == old(colorBuffer) && dataChanged == old(dataChanged)
      ensures textures == old(textures)
      ensures cameraPos == old(cameraPos) && cameraLookat == old(cameraLookat) && cameraUp == old(cameraUp)
    {
      depthText := dt;
    }

    method SetCamera(pos: Vec3, lookat: Vec3, up: Vec3)
      modifies this
      ensures cameraPos == pos && cameraLookat == lookat && cameraUp == up
      ensures backFaceCull == old(backFaceCull) && depthText == old(depthText)
      ensures colorList == old(colorList) && colorBuffer == old(colorBuffer) && dataChanged == old(dataChanged)
      ensures textures == old(textures)
    {
      cameraPos, cameraLookat, cameraUp := pos, lookat, up;
    }

    /** Recolours colour triangle trinum and patches the colour buffer; outside the list nothing changes. */
    method SetColorTriangleColor(trinum: int, color: Vec3)
      requires Valid()
      modifies this
      ensures Valid()
      ensures colorList == PaintColorTriangle(old(colorList), trinum, color)
      ensures 0 <= trinum < |old(colorList)| ==> colorBuffer == Patched(old(colorBuffer), trinum, colorList[trinum])
      ensures !(0 <= trinum < |old(colorList)|) ==> colorBuffer == old(colorBuffer)
      ensures dataChanged == old(dataChanged) && textures == old(textures)
      ensures cameraPos == old(cameraPos) && cameraLookat == old(cameraLookat) && cameraUp == old(cameraUp)
      ensures backFaceCull == old(backFaceCull) && depthText == old(depthText)
    {
      if trinum < 0 || trinum >= |colorList| {
        return;
      }
      colorList := PaintColorTriangle(colorList, trinum, color);
      colorBuffer := Patched(colorBuffer, trinum, colorList[trinum]);
    }

    /** The colour of vertex 0 of colour triangle trinum, or zero outside the list. */
    function GetColorTriangleColor(trinum: int): (c: Vec3)
      reads this
      ensures 0 <= trinum < |colorList| ==> c == colorList[trinum].v0.color
      ensures !(0 <= trinum < |colorList|) ==> c == Zero3
    {
      ColorTriangleColor(colorList, trinum)
    }

    /**
     * Recolours the element a pick named: a point marker, a colour triangle or
     * a textured triangle (whose unit must exist); a NONE pick changes nothing.
     */
    method SetElementColor(pick: PickResult, newColor: Vec3)
      requires Valid()
      requires pick.kind == TRIANGLE ==> 0 <= pick.group < |textures|
      modifies this, font, textures
      ensures Valid() && textures == old(textures)
      ensures pick.kind == POINT ==> font.points == PaintPoint(old(font.points), pick.index, newColor)
      ensures pick.kind != POINT ==> font.points == old(font.points)
      ensures pick.kind == COLOR ==> colorList == PaintColorTriangle(old(colorList), pick.index, newColor)
      ensures pick.kind != COLOR ==> colorList == old(colorList)
      ensures forall t :: 0 <= t < |textures| ==>
                textures[t].triangles == if pick.kind == TRIANGLE && t == pick.group
                                         then PaintTextureTriangle(old(textures[t].triangles), pick.index, newColor)
                                         else old(textures[t].triangles)
      // the buffer patches: the element repainted, and only that one, is rewritten in its buffer
      ensures if pick.kind == POINT && 0 <= pick.index < |old(font.points)|
              then font.bufPoints == Patched(old(font.bufPoints), pick.index, font.points[pick.index])
              else font.bufPoints == old(font.bufPoints)
      ensures if pick.kind == COLOR && 0 <= pick.index < |old(colorList)|
              then colorBuffer == Patched(old(colorBuffer), pick.index, colorList[pick.index])
              else colorBuffer == old(colorBuffer)
      ensures forall t :: 0 <= t < |textures| ==>
                textures[t].uploaded == if pick.kind == TRIANGLE && t == pick.group && 0 <= pick.index < |textures[t].triangles|
                                        then Patched(old(textures[t].uploaded), pick.index, textures[t].triangles[pick.index])
                                        else old(textures[t].uploaded)
      // no rebuild is requested, and nothing else changes
      ensures dataChanged == old(dataChanged)
      ensures forall t :: 0 <= t < |textures| ==>
                textures[t].changed == old(textures[t].changed) && textures[t].textureID == old(textures[t].textureID)
                && textures[t].image == old(textures[t].image)
      ensures font.text2DChanged == old(font.text2DChanged) && font.text3DChanged == old(font.text3DChanged)
      ensures font.quad2D == old(font.quad2D) && font.quad3D == old(font.quad3D)
      ensures font.buf2D == old(font.buf2D) && font.buf3D == old(font.buf3D)
      ensures cameraPos == old(cameraPos) && cameraLookat == old(cameraLookat) && cameraUp == old(cameraUp)
      ensures backFaceCull == old(backFaceCull) && depthText == old(depthText)
    {
      if pick.kind == NONE {
        return;
      } else if pick.kind == POINT {
        font.SetPointColor(pick.index, newColor);
      } else if pick.kind == COLOR {
        SetColorTriangleColor(pick.index, newColor);
      } else {
        textures[pick.group].SetTriangleColor(pick.index, newColor);
      }
    }

    /** The candidate distances of every textured triangle, unit by unit. */
    function UnitDistances(raystart: Vec3, raydir: Vec3): (us: seq<seq<Option<real>>>)
      reads this, textures
      ensures |us| == |textures|
      ensures forall t :: 0 <= t < |textures| ==> us[t] == TextureTriangleDistances(raystart, raydir, textures[t].triangles)
    {
      seq(|textures|, t reads this, textures requires 0 <= t < |textures| =>
        TextureTriangleDistances(raystart, raydir, textures[t].triangles))
    }

    /** The colour PickElement reports for a decided pick; zero for NONE. */
    function PickedColor(r: PickResult): Vec3
      reads this, font, textures
    {
      match r.kind
      case POINT => font.GetPointColor(r.index)
      case COLOR => GetColorTriangleColor(r.index)
      case TRIANGLE => if 0 <= r.group < |textures| then textures[r.group].GetTriangleColor(r.index) else Zero3
      case NONE => Zero3
    }

    /** The texture-unit loop of PickElement: each unit's PickTriangle continues from the running minimum. */
    method PickTextures(raystart: Vec3, raydir: Vec3, mindist0: real) returns (mintex: int, mintri: int, mindist: real)
      ensures (mintex, mintri, mindist) == ScanUnits(UnitDistances(raystart, raydir), mindist0)
    {
      ghost var us := UnitDistances(raystart, raydir);
      mindist := mindist0;
      mintex := -2;
      mintri := -1;
      for t := 0 to |textures|
        invariant (mintex, mintri, mindist) == ScanUnits(us[..t], mindist0)
      {
        var tri, m := textures[t].PickTriangle(raystart, raydir, mindist);
        assert us[..t + 1][..t] == us[..t];
        mindist := m;
        if tri >= 0 {
          mintex, mintri := t, tri;
        }
      }
      assert us[..|textures|] == us;
    }

    /**
     * The colour-triangle loop of PickElement: a colour triangle strictly
     * nearer than the running minimum replaces whatever was found before.
     */
    method PickColorTriangles(raystart: Vec3, raydir: Vec3, tex0: int, tri0: int, mindist0: real)
      returns (mintex: int, mintri: int, mindist: real)
      ensures var (kc, m) := Scan(ColorTriangleDistances(raystart, raydir, colorList), mindist0);
              && mindist == m
              && (kc >= 0 ==> mintex == -1 && mintri == kc)
              && (kc == -1 ==> mintex == tex0 && mintri == tri0)
    {
      ghost var cs := ColorTriangleDistances(raystart, raydir, colorList);
      mintex, mintri, mindist := tex0, tri0, mindist0;
      for c := 0 to |colorList|
        invariant mindist == Scan(cs[..c], mindist0).1
        invariant Scan(cs[..c], mindist0).0 >= 0 ==> mintex == -1 && mintri == Scan(cs[..c], mindist0).0
        invariant Scan(cs[..c], mindist0).0 == -1 ==> mintex == tex0 && mintri == tri0
      {
        var tri := colorList[c];
        var hit, m := RayTriangle(raystart, raydir, tri.v0.pos, tri.v1.pos, tri.v2.pos, mindist);
        assert cs[..c + 1][..c] == cs[..c];
        if hit {
          mindist := m;
          mintex, mintri := -1, c;
        }
      }
      assert cs[..|colorList|] == cs;
    }

    /**
     * The three scans of PickElement, from the camera along raydir and the far
     * clip distance down: the texture units, the colour triangles, then the
     * point markers. What they leave is the choice Decide makes.
     */
    method PickNearest(raydir: Vec3, sqrt: real -> real) returns (mintex: int, mintri: int, dist: real, point: int)
      ensures Choose(mintex, mintri, dist, point)
              == Decide(UnitDistances(cameraPos, raydir),
                        ColorTriangleDistances(cameraPos, raydir, colorList),
                        PointDistances(cameraPos, raydir, font.points, font.pointSize, sqrt), cameraFar)
      ensures mintex == -2 || mintex == -1 || 0 <= mintex < |textures|
    {
      var raystart := cameraPos;
      ghost var us := UnitDistances(raystart, raydir);
      ghost var cs := ColorTriangleDistances(raystart, raydir, colorList);
      ghost var ps := PointDistances(raystart, raydir, font.points, font.pointSize, sqrt);
      var tex0, tri0, m1 := PickTextures(raystart, raydir, cameraFar);
      mintex, mintri, dist := PickColorTriangles(raystart, raydir, tex0, tri0, m1);
      var m3;
      point, m3 := font.PickPoint(raystart, raydir, dist, sqrt);
      DecideSteps(us, cs, ps, cameraFar, tex0, tri0, m1, mintex, mintri, dist, point);
      assert us == UnitDistances(cameraPos, raydir);
      assert cs == ColorTriangleDistances(cameraPos, raydir, colorList);
      assert ps == PointDistances(cameraPos, raydir, font.points, font.pointSize, sqrt);
    }

    /**
     * PickElement along raydir from the camera: the result is Decide on the
     * candidate distances of all textured triangles, colour triangles and
     * point markers, starting from the far clip distance, with the picked
     * element's colour.
     */
    method PickElement(raydir: Vec3, sqrt: real -> real) returns (result: PickResult)
      ensures var d := Decide(UnitDistances(cameraPos, raydir),
                              ColorTriangleDistances(cameraPos, raydir, colorList),
                              PointDistances(cameraPos, raydir, font.points, font.pointSize, sqrt), cameraFar);
              result == d.(color := PickedColor(d))
    {
      var mintex, mintri, dist, point := PickNearest(raydir, sqrt);
      if point >= 0 {
        result := PickResult(POINT, 0, point, dist, font.GetPointColor(point));
      } else if mintex == -1 {
        result := PickResult(COLOR, 0, mintri, dist, GetColorTriangleColor(mintri));
      } else if mintex >= 0 {
        result := PickResult(TRIANGLE, mintex, mintri, dist, textures[mintex].GetTriangleColor(mintri));
      } else {
        result := PickResult(NONE, 0, 0, dist, Zero3);
      }
    }
  }
}
