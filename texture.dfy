/**
 * GLTexture: one texture unit, holding its textured triangles, the vertex
 * buffer last uploaded from them, and the OpenGL texture it samples.
 */
module Textures {
  import opened Linear
  import opened Vertices
  import opened Options
  import opened Intersection
  import opened Picking
  import opened Pixels

  /**
   * The message the loader shows, or Loaded: the file could not be opened, the bitmap could not be mapped,
   * it has no pixels, its format is not one of RGB, RGBA, BGR, BGRA, or
   * OpenGL reported an error after the upload.
   */
  datatype LoadStatus = Loaded | OpenFailed | AccessFailed | LoadFailed | UnknownFormat | CreateFailed

  /** What glTexImage2D received: the layout, the size and the bytes. */
  datatype TextureImage = TextureImage(format: GlFormat, width: nat, height: nat, pixels: seq<bv8>)

  class Texture {
    /** triangleList */
    var triangles: seq<TextureTriangle>
    /** The contents of the vertex buffer, as of the last upload and later patches. */
    var uploaded: seq<TextureTriangle>
    /** Set when triangles were added and the vertex buffer must be rebuilt. */
    var changed: bool
    /** The OpenGL texture name; 0 when no texture was created. */
    var textureID: nat
    /** The image handed to glTexImage2D by the last load that got that far. */
    var image: Option<TextureImage>

    /**
     * While no rebuild is pending, the triangles drawn (the first |triangles|
     * of the vertex buffer) are exactly the CPU list.
     */
    ghost predicate Valid()
      reads this
    {
      !changed ==> |triangles| <= |uploaded| && uploaded[..|triangles|] == triangles
    }

    constructor ()
      ensures Valid()
      ensures triangles == [] && uploaded == [] && changed && textureID == 0 && image == None
    {
      triangles := [];
      uploaded := [];
      changed := true;
      textureID := 0;
      image := None;
    }

    /** A flat-shaded triangle with texture coordinates and zero colour; the buffer must be rebuilt. */
    method AddTriangleVT(p1: Vec3, p2: Vec3, p3: Vec3, t1: Vec2, t2: Vec2, t3: Vec2)
      modifies this
      ensures Valid()
      ensures triangles == old(triangles) + [TextureTriangleVT(p1, p2, p3, t1, t2, t3)]
      ensures changed
      ensures uploaded == old(uploaded) && textureID == old(textureID) && image == old(image)
    {
      triangles := triangles + [TextureTriangleVT(p1, p2, p3, t1, t2, t3)];
      changed := true;
    }

    /** A triangle with per-vertex normals and texture coordinates and zero colour. */
    method AddTriangleVNT(p1: Vec3, p2: Vec3, p3: Vec3, n1: Vec3, n2: Vec3, n3: Vec3, t1: Vec2, t2: Vec2, t3: Vec2)
      modifies this
      ensures Valid()
      ensures triangles == old(triangles) + [TextureTriangleVNT(p1, p2, p3, n1, n2, n3, t1, t2, t3)]
      ensures changed
      ensures uploaded == old(uploaded) && textureID == old(textureID) && image == old(image)
    {
      triangles := triangles + [TextureTriangleVNT(p1, p2, p3, n1, n2, n3, t1, t2, t3)];
      changed := true;
    }

    /**
     * Empties the list without flagging a rebuild: nothing is drawn, and the
     * stale buffer is left as it was.
     */
    method ClearTriangles()
      requires Valid()
      modifies this
      ensures Valid()
      ensures triangles == [] && changed == old(changed)
      ensures uploaded == old(uploaded) && textureID == old(textureID) && image == old(image)
    {
      triangles := [];
    }

    /**
     * Recolours triangle trinum in the list and patches the same element of
     * the vertex buffer; an index outside the list changes nothing.
     */
    method SetTriangleColor(trinum: int, color: Vec3)
      requires Valid()
      modifies this
      ensures Valid()
      ensures triangles == PaintTextureTriangle(old(triangles), trinum, color)
      ensures 0 <= trinum < |old(triangles)| ==>
                uploaded == Patched(old(uploaded), trinum, triangles[trinum])
      ensures !(0 <= trinum < |old(triangles)|) ==> uploaded == old(uploaded)
      ensures changed == old(changed) && textureID == old(textureID) && image == old(image)
    {
      if trinum < 0 || trinum >= |triangles| {
        return;
      }
      triangles := PaintTextureTriangle(triangles, trinum, color);
      uploaded := Patched(uploaded, trinum, triangles[trinum]);
    }

    /** The colour of vertex 0 of triangle trinum, or zero outside the list. */
    function GetTriangleColor(trinum: int): (c: Vec3)
      reads this
      ensures 0 <= trinum < |triangles| ==> c == triangles[trinum].v0.color
      ensures !(0 <= trinum < |triangles|) ==> c == Zero3
    {
      TextureTriangleColor(triangles, trinum)
    }

    /** The triangles glDrawArrays draws from the vertex buffer. */
    function Drawn(): seq<TextureTriangle>
      reads this
      requires |triangles| <= |uploaded|
    {
      uploaded[..|triangles|]
    }

    /**
     * The dirty step of Render: a pending rebuild uploads the list and clears
     * the flag; afterwards the drawn triangles are the list.
     */
    method Render()
      requires Valid()
      modifies this
      ensures Valid() && !changed
      ensures uploaded == if old(changed) then triangles else old(uploaded)
      ensures |triangles| <= |uploaded| && Drawn() == triangles
      ensures triangles == old(triangles) && textureID == old(textureID) && image == old(image)
    {
      if changed {
        uploaded := triangles;
        changed := false;
      }
    }

    /**
     * The first nearest triangle the ray hits below mindist, by the loop of
     * PickTriangle, with the lowered minimum.
     */
    method PickTriangle(raystart: Vec3, raydir: Vec3, mindist: real) returns (tri: int, newMin: real)
      ensures (tri, newMin) == Scan(TextureTriangleDistances(raystart, raydir, triangles), mindist)
      ensures FirstMinimum(TextureTriangleDistances(raystart, raydir, triangles), mindist, tri, newMin)
    {
      ghost var ds := TextureTriangleDistances(raystart, raydir, triangles);
      tri, newMin := -1, mindist;
      for i := 0 to |triangles|
        invariant (tri, newMin) == Scan(ds[..i], mindist)
      {
        var t := triangles[i];
        var hit, m := RayTriangle(raystart, raydir, t.v0.pos, t.v1.pos, t.v2.pos, newMin);
        assert ds[..i + 1][..i] == ds[..i];
        if hit {
          tri, newMin := i, m;
        }
      }
      assert ds[..|triangles|] == ds;
      ScanFindsFirstMinimum(ds, mindist);
    }

    /**
     * LoadTextureFromBitmap on an already mapped bitmap (mapped says whether
     * mapping succeeded), as intended: the bitmap belongs to the caller and is
     * never deleted here (deletesBitmap). glName is the name glGenTextures
     * hands out and glFailed whether glGetError reported an error after the
     * upload.
     */
    method LoadTextureFromBitmap(bmp: Bitmap, mapped: bool, glName: nat, glFailed: bool)
      returns (status: LoadStatus, deletesBitmap: bool)
      requires glName != 0
      requires mapped ==> WellMapped(bmp)
      modifies this
      ensures LoadOutcome(bmp, mapped, glName, glFailed, status, textureID, image, old(image))
      ensures triangles == old(triangles) && uploaded == old(uploaded) && changed == old(changed)
      ensures !deletesBitmap
    {
      textureID := 0;
      deletesBitmap := false;
      if !mapped {
        return AccessFailed, false;
      }
      var numpix := bmp.width * bmp.height;
      if numpix == 0 {
        return LoadFailed, false;
      }
      var glformat := UploadFormat(bmp.format);
      if glformat == None {
        return UnknownFormat, false;
      }
      var buffer := new bv8[numpix * bmp.bytesPerPixel];
      forall i | 0 <= i < buffer.Length {
        buffer[i] := bmp.data[i];
      }
      assert buffer[..] == bmp.data[..numpix * bmp.bytesPerPixel];
      if bmp.format == BGR || bmp.format == BGRA {
        MulMonoRight(numpix, SwapStride(bmp.format), bmp.bytesPerPixel);
        SwapRedBlue(buffer, numpix, SwapStride(bmp.format));
      }
      textureID := glName;
      image := Some(TextureImage(glformat.value, bmp.width, bmp.height, buffer[..]));
      if glFailed {
        textureID := 0;
        return CreateFailed, false;
      }
      return Loaded, false;
    }

    /**
     * LoadTextureFromBitmap as the source is written: the unknown-format path
     * also deletes the bitmap it was handed (deletesBitmap), which belongs to
     * its caller; everything else is the loader above.
     */
    method LoadTextureFromBitmapAsWritten(bmp: Bitmap, mapped: bool, glName: nat, glFailed: bool)
      returns (status: LoadStatus, deletesBitmap: bool)
      requires glName != 0
      requires mapped ==> WellMapped(bmp)
      modifies this
      ensures LoadOutcome(bmp, mapped, glName, glFailed, status, textureID, image, old(image))
      ensures triangles == old(triangles) && uploaded == old(uploaded) && changed == old(changed)
      ensures deletesBitmap <==> status == UnknownFormat
    {
      status, deletesBitmap := LoadTextureFromBitmap(bmp, mapped, glName, glFailed);
      deletesBitmap := status == UnknownFormat;
    }

    /**
     * LoadTextureFromFile: file is the bitmap read from the file, None when
     * opening it failed; the rest is LoadTextureFromBitmap. The method owns
     * that bitmap and deletes it after the try block on every path; deletes
     * counts the deletions of it, here always one.
     */
    method LoadTextureFromFile(file: Option<Bitmap>, mapped: bool, glName: nat, glFailed: bool)
      returns (status: LoadStatus, deletes: nat)
      requires glName != 0
      requires file.Some? && mapped ==> WellMapped(file.value)
      modifies this
      ensures status == OpenFailed <==> file == None
      ensures file == None ==> textureID == old(textureID) && image == old(image)
      ensures file.Some? ==> LoadOutcome(file.value, mapped, glName, glFailed, status, textureID, image, old(image))
      ensures triangles == old(triangles) && uploaded == old(uploaded) && changed == old(changed)
      ensures deletes == 1
    {
      if file == None {
        return OpenFailed, 1;
      }
      var loaderDeletes;
      status, loaderDeletes := LoadTextureFromBitmap(file.value, mapped, glName, glFailed);
      deletes := Deletions(loaderDeletes);
    }

    /**
     * LoadTextureFromFile as written, over the loader as written: a bitmap in
     * an unknown format is deleted by the loader and then again here.
     */
    method LoadTextureFromFileAsWritten(file: Option<Bitmap>, mapped: bool, glName: nat, glFailed: bool)
      returns (status: LoadStatus, deletes: nat)
      requires glName != 0
      requires file.Some? && mapped ==> WellMapped(file.value)
      modifies this
      ensures status == OpenFailed <==> file == None
      ensures file == None ==> textureID == old(textureID) && image == old(image)
      ensures file.Some? ==> LoadOutcome(file.value, mapped, glName, glFailed, status, textureID, image, old(image))
      ensures triangles == old(triangles) && uploaded == old(uploaded) && changed == old(changed)
      ensures deletes == if status == UnknownFormat then 2 else 1
    {
      if file == None {
        return OpenFailed, 1;
      }
      var loaderDeletes;
      status, loaderDeletes := LoadTextureFromBitmapAsWritten(file.value, mapped, glName, glFailed);
      deletes := Deletions(loaderDeletes);
    }

    /**
     * LoadTextureFromResource: bmp is the bitmap read from the resource
     * stream; the method owns it, hands it to the loader and deletes it
     * afterwards, once.
     */
    method LoadTextureFromResource(bmp: Bitmap, mapped: bool, glName: nat, glFailed: bool)
      returns (status: LoadStatus, deletes: nat)
      requires glName != 0
      requires mapped ==> WellMapped(bmp)
      modifies this
      ensures LoadOutcome(bmp, mapped, glName, glFailed, status, textureID, image, old(image))
      ensures triangles == old(triangles) && uploaded == old(uploaded) && changed == old(changed)
      ensures deletes == 1
    {
      var loaderDeletes;
      status, loaderDeletes := LoadTextureFromBitmap(bmp, mapped, glName, glFailed);
      deletes := Deletions(loaderDeletes);
    }

    /** LoadTextureFromResource as written, over the loader as written. */
    method LoadTextureFromResourceAsWritten(bmp: Bitmap, mapped: bool, glName: nat, glFailed: bool)
      returns (status: LoadStatus, deletes: nat)
      requires glName != 0
      requires mapped ==> WellMapped(bmp)
      modifies this
      ensures LoadOutcome(bmp, mapped, glName, glFailed, status, textureID, image, old(image))
      ensures triangles == old(triangles) && uploaded == old(uploaded) && changed == old(changed)
      ensures deletes == if status == UnknownFormat then 2 else 1
    {
      var loaderDeletes;
      status, loaderDeletes := LoadTextureFromBitmapAsWritten(bmp, mapped, glName, glFailed);
      deletes := Deletions(loaderDeletes);
    }
  }

  /**
   * What a load of bmp leaves behind: the status the first failing step
   * gives (mapping, pixel count, format, then the OpenGL error), the texture
   * name kept only on success, and the image handed to glTexImage2D whenever
   * the upload was reached (otherwise the previous image, oldImage).
   */
  predicate LoadOutcome(bmp: Bitmap, mapped: bool, glName: nat, glFailed: bool,
                        status: LoadStatus, textureID: nat, image: Option<TextureImage>, oldImage: Option<TextureImage>)
    requires mapped ==> WellMapped(bmp)
  {
    && status != OpenFailed
    && (status == Loaded <==> mapped && PixelCount(bmp) != 0 && bmp.format != OtherFormat && !glFailed)
    && (status == AccessFailed <==> !mapped)
    && (status == LoadFailed <==> mapped && PixelCount(bmp) == 0)
    && (status == UnknownFormat <==> mapped && PixelCount(bmp) != 0 && bmp.format == OtherFormat)
    && (status == CreateFailed <==> mapped && PixelCount(bmp) != 0 && bmp.format != OtherFormat && glFailed)
    && textureID == (if status == Loaded then glName else 0)
    && (status in {Loaded, CreateFailed} ==>
          image == Some(TextureImage(UploadFormat(bmp.format).value, bmp.width, bmp.height, UploadBuffer(bmp))))
    && (status !in {Loaded, CreateFailed} ==> image == oldImage)
  }

  /** How often an owning loader's bitmap is deleted: once by the owner, plus once if the loader deleted it. */
  function Deletions(byLoader: bool): nat
  {
    if byLoader then 2 else 1
  }

  /**
   * As written, loading a one-pixel bitmap file in a format the loader does
   * not know (RGBA16, say) deletes the bitmap twice.
   */
  method UnknownFormatFileDeletedTwice() returns (deletes: nat)
    ensures deletes == 2
  {
    var tex := new Texture();
    var status;
    status, deletes := tex.LoadTextureFromFileAsWritten(Some(Bitmap(1, 1, OtherFormat, 8, [0, 0, 0, 0, 0, 0, 0, 0])), true, 1, false);
  }

  /** The same file through the intended loader is deleted once. */
  method UnknownFormatFileDeletedOnce() returns (deletes: nat)
    ensures deletes == 1
  {
    var tex := new Texture();
    var status;
    status, deletes := tex.LoadTextureFromFile(Some(Bitmap(1, 1, OtherFormat, 8, [0, 0, 0, 0, 0, 0, 0, 0])), true, 1, false);
  }
}
