# OpenGLWindow — a verified model of its CPU-side core

OpenGLWindow is a small C++ wrapper around GLFW and OpenGL. A program adds
geometry to a `TOpenGLWindow`:

- colour triangles;
- textured triangles, each grouped under a texture unit (`GLTexture`);
- screen text and world text, laid out by the default `GLFont` as billboard
  quads, and point markers.

It calls `Render` to draw the frame. It calls `PickElement` to find the
element under the mouse, and `SetElementColor` to highlight that element.

This project models the part of that library that is bookkeeping rather
than OpenGL:

- the triangle and quad lists;
- the vertex buffers uploaded from those lists, and the dirty flags that
  decide when a buffer is rebuilt;
- the index a texture unit gets;
- the red/blue exchange applied to BGR and BGRA bitmaps before upload;
- ray/triangle and ray/sphere picking, with the priority that decides between
  a point, a colour triangle and a textured triangle;
- the equality of pick results;
- font text layout: string width, alignment, atlas cell and glyph quads;
- the comma/newline field reader used for font metrics;
- the render switches.

Every OpenGL buffer is a sequence field holding what was last uploaded.
The models of `glBufferData` and `glBufferSubData` assign or patch that field.

Modules, one per concept of the source:

| file | module | models |
|---|---|---|
| `options.dfy` | `Options` | an optional value |
| `linear.dfy` | `Linear` | the `glm::vec2`/`vec3` operations the core uses |
| `vertices.dfy` | `Vertices` | the vertex, triangle and quad records; building, recolouring and reading back one element; the one-element buffer patch |
| `pick_result.dfy` | `PickResults` | `GLPickType`, `GLPickResult` and its `compare`, `==`, `!=` |
| `intersection.dfy` | `Intersection` | `RayTriangle`, `RaySphere` and the running-minimum scan every pick loop performs |
| `picking.dfy` | `Picking` | the candidate distances of each geometry list and the decision `PickElement` makes from them |
| `pixels.dfy` | `Pixels` | the pixel formats, the copied buffer and the red/blue exchange of `LoadTextureFromBitmap` |
| `text_layout.dfy` | `TextLayout` | the arithmetic of `GLFont::AddText2D`/`AddText3D`: widths, alignment, atlas cells and glyph quads |
| `font_data.dfy` | `FontData` | `getNext`, the reader of the font's comma/newline separated metrics |
| `texture.dfy` | `Textures` | class `Texture`, which is `GLTexture` |
| `font.dfy` | `Fonts` | class `Font`, which is `GLFont` |
| `window.dfy` | `Windows` | class `Window`, which is `TOpenGLWindow` |

The three classes share one invariant, `Valid`. While no rebuild is pending,
the elements drawn from a buffer are exactly the CPU list.

For colour triangles and texture units, this means a prefix of the buffer.
`ClearData` and `GLTexture::ClearTriangles` empty a list without raising the
flag, so the stale buffer stays, but only the first `size()` elements are
drawn.

The font's clear operations raise their flags, so for the font the buffers
equal the lists.

Floating-point values are modelled as `real`. The square root inside
`RaySphere` is a parameter `sqrt`. The lemmas that need its defining property
take that property as a precondition.

## Model

| member | source | states |
|---|---|---|
| PickResults.DefaultPickResult | OpenGLWindow.h:101 | a default-constructed pick result is of kind NONE |
| PickResults.Compare | OpenGLWindow.h:104-124 | two pick results compare equal exactly when they name the same element: the same kind, and for COLOR and POINT the same index, for TRIANGLE the same unit and index; NONE equals only NONE |
| PickResults.Equal | OpenGLWindow.h:102 | `==` holds exactly when both results name the same element |
| PickResults.NotEqual | OpenGLWindow.h:103 | `!=` is the negation of `==`, i.e. the results name different elements |
| PickResults.NoneEqualsOnlyNone | OpenGLWindow.h:105-107 | a NONE result equals b if and only if b is NONE |
| PickResults.ColorEquality | OpenGLWindow.h:108-112 | a COLOR result equals b if and only if b is COLOR with the same index |
| PickResults.TriangleEquality | OpenGLWindow.h:113-117 | a TRIANGLE result equals b if and only if b is TRIANGLE with the same group and index |
| PickResults.PointEquality | OpenGLWindow.h:118-122 | a POINT result equals b if and only if b is POINT with the same index |
| PickResults.EqualityIgnoresMeasurements | OpenGLWindow.h:104-124 | changing the distance or colour of either side never changes equality |
| PickResults.EqualityIgnoresGroupOutsideTriangles | OpenGLWindow.h:104-124 | the group of a non-TRIANGLE result plays no part in equality |
| PickResults.CompareIsEquivalence | OpenGLWindow.h:104-124 | compare is reflexive, symmetric and transitive |
| Vertices.FaceNormal | OpenGLWindow.cpp:681 | the face normal is the right-handed cross product (p2 − p1) × (p3 − p1) of the winding p1, p2, p3, perpendicular to both edges leaving the first vertex |
| Vertices.ColorTriangleVC | OpenGLWindow.cpp:664-688 | the triangle stores the given positions and colours, and all three vertices share the face normal (p2 − p1) × (p3 − p1), perpendicular to the face |
| Vertices.ColorTriangleVNC | OpenGLWindow.cpp:691-713 | each vertex stores exactly its given position, normal and colour |
| Vertices.TextureTriangleVT | OpenGLWindow.cpp:1355-1384 | positions and texture coordinates as given, the face normal (p2 − p1) × (p3 − p1) on all three vertices, colour zero on every vertex |
| Vertices.TextureTriangleVNT | OpenGLWindow.cpp:1387-1415 | each vertex stores its given position, normal and texture coordinate, with colour zero |
| Vertices.PaintColorTriangle | OpenGLWindow.cpp:897-907 | an in-range index has all three vertex colours replaced and positions and normals kept; every other triangle is kept; an out-of-range index changes nothing |
| Vertices.PaintTextureTriangle | OpenGLWindow.cpp:1268-1278 | the same for a textured triangle, which also keeps its texture coordinates |
| Vertices.PaintPoint | OpenGLWindow.cpp:2083-2098 | all six vertex colours of an in-range marker are replaced and everything else is kept; an out-of-range index changes nothing |
| Vertices.PaintThenReadColorTriangle | OpenGLWindow.cpp:897-921 | reading a colour triangle's colour after painting it gives the painted colour, or zero outside the list |
| Vertices.PaintThenReadTextureTriangle | OpenGLWindow.cpp:1268-1292 | the same for a textured triangle |
| Vertices.PaintThenReadPoint | OpenGLWindow.cpp:2083-2113 | the same for a point marker |
| Vertices.Patched | OpenGLWindow.cpp:908 | a one-element buffer update writes exactly that element when it lies inside the buffer; the length and all other elements are unchanged |
| Intersection.RayTriangle | OpenGLWindow.cpp:181-220 | reports a hit exactly when the front-face Möller–Trumbore distance exists and lies below mindist, and then lowers mindist to that distance; otherwise mindist is unchanged |
| Intersection.TriangleHitIsOnTriangle | OpenGLWindow.cpp:194-211 | a reported distance t puts start + t·dir inside the triangle: it equals v0 + u·(v1−v0) + v·(v2−v0) with u, v ≥ 0 and u + v ≤ 1 |
| Intersection.TriangleIntersectionIsHit | OpenGLWindow.cpp:194-211 | conversely, when the determinant is at least EPSILON and start + t·dir equals v0 + u·(v1−v0) + v·(v2−v0) with u, v ≥ 0 and u + v ≤ 1, the distance reported is exactly t |
| Intersection.CentroidHit | OpenGLWindow.cpp:194-211 | a ray cast straight down from height h through the centroid of a triangle in the plane z = 0 hits it at distance h |
| Intersection.ReversedWindingMisses | OpenGLWindow.cpp:199 | a triangle hit from the front is missed once its winding is reversed (back faces are never picked) |
| Intersection.RaySphere | OpenGLWindow.cpp:2031-2064 | reports a hit exactly when the direction is not degenerate, the discriminant is non-negative and the smaller of the two quadratic-formula values lies below mindist, and then lowers mindist to it |
| Intersection.SphereHitIsOnSphere | OpenGLWindow.cpp:2036-2061 | given an exact square root, the reported distance puts the ray point on the sphere's surface |
| Intersection.SphereHitIsFound | OpenGLWindow.cpp:2036-2061 | conversely, with an exact square root of either sign and a non-degenerate direction, a point origin + t·dir on the sphere is found: a distance is reported, and it is at most t |
| Intersection.SphereHitIffClose | OpenGLWindow.cpp:2036-2048 | with a non-degenerate direction, a distance is reported if and only if the line's closest approach to the centre is no farther than the radius |
| Intersection.RootIsFound | OpenGLWindow.cpp:2047-2052 | every root of a non-degenerate quadratic makes the discriminant non-negative and is one of the two quadratic-formula values |
| Intersection.VertexValue | OpenGLWindow.cpp:2047 | for a > 0 the discriminant is non-negative exactly when the quadratic is not positive at its vertex −b/(2a) |
| Intersection.SphereThroughCentre | OpenGLWindow.cpp:2036-2061 | a ray aimed at the centre of a unit sphere five units away hits it at distance 4, whichever sign the square root of 4 takes |
| Intersection.SphereMissedFarAway | OpenGLWindow.cpp:2047-2049 | a ray passing three units from the centre of a unit sphere is not a hit |
| Intersection.SphereDistanceIsRoot | OpenGLWindow.cpp:2036-2061 | given an exact square root, the distance RaySphere reports is a root of its quadratic a·t² + b·t + c |
| Intersection.SphereExpansion | OpenGLWindow.cpp:2036-2044 | the coefficients a, b, c computed by RaySphere are those of the distance-squared polynomial along the ray |
| Intersection.QuadraticRoot | OpenGLWindow.cpp:2051-2052 | both candidate distances are roots of the quadratic |
| Intersection.SphereBehindOriginHits | OpenGLWindow.cpp:2054-2061 | a marker entirely behind the ray origin is still a hit, at a negative distance |
| Intersection.Scan | OpenGLWindow.cpp:1418-1427 | the scan's index lies in −1 up to the list length; its minimum never exceeds the start; the index is −1 exactly when the minimum stayed at the start |
| Intersection.ScanFindsFirstMinimum | OpenGLWindow.cpp:1418-1427 | the last strict improvement is the first candidate attaining the least distance below the start, or −1 when none is below it |
| Intersection.FirstMinimumIsUnique | OpenGLWindow.cpp:1418-1427 | that characterisation determines the index and the distance uniquely |
| Picking.TextureTriangleDistances | OpenGLWindow.cpp:1421 | one candidate per textured triangle: its RayTriangle distance from the positions of its three vertices |
| Picking.ColorTriangleDistances | OpenGLWindow.cpp:847 | one candidate per colour triangle, likewise |
| Picking.DeterminantAlongNormal | OpenGLWindow.cpp:196-199 | RayTriangle's determinant is minus the ray direction's component along the triangle's face normal |
| Picking.PickedFlatTriangleFacesRay | OpenGLWindow.cpp:681-686 | a flat-shaded colour triangle is hit only by a ray travelling against the normal it stores, by at least EPSILON |
| Picking.PointDistances | OpenGLWindow.cpp:2070-2074 | one candidate per marker: the RaySphere distance to the centre stored in its first vertex, with radius pointSize |
| Picking.ScanUnits | OpenGLWindow.cpp:835-844 | the minimum after the texture units never exceeds the start |
| Picking.ScanUnitsFindsFirstMinimum | OpenGLWindow.cpp:835-844 | scanning the units in order, each continuing from the running minimum, finds the first textured triangle in unit-then-index order with the least distance below the start; (−2, −1) when none is below it |
| Picking.DecideFacts | OpenGLWindow.cpp:835-857 | each of the three scans finds its first minimum from the running minimum, and the reported distance is the one recorded after the triangle loops, before the point scan |
| Picking.PickNoneIff | OpenGLWindow.cpp:828-878 | the pick is NONE if and only if no textured triangle, colour triangle or marker is hit nearer than the far plane |
| Picking.PickPoint | OpenGLWindow.cpp:857-863 | a POINT pick names the first nearest marker hit below the recorded distance, and no triangle lies nearer than that distance |
| Picking.PickColor | OpenGLWindow.cpp:864-869 | a COLOR pick names the first nearest colour triangle, at the reported distance below the far plane; no textured triangle is at that distance or nearer, and no marker is hit nearer |
| Picking.PickTriangle | OpenGLWindow.cpp:870-875 | a TRIANGLE pick names a textured triangle at the reported distance, the first such in unit-then-index order; no colour triangle or marker lies nearer |
| Pixels.SwappedRB | OpenGLWindow.cpp:1196-1211 | the exchange keeps the buffer length and every byte past the last pixel |
| Pixels.SwappedRBPixel | OpenGLWindow.cpp:1196-1211 | byte o of pixel p after the exchange is byte Partner(o) of pixel p before; bytes 0 and 2 trade places and the rest stay |
| Pixels.SwappedRBInvolution | OpenGLWindow.cpp:1196-1211 | exchanging twice restores the buffer, for the 3-byte and 4-byte strides the loader uses |
| Pixels.SwapRedBlue | OpenGLWindow.cpp:1198-1210 | the in-place loop over the buffer array leaves exactly the exchanged buffer |
| Pixels.UploadFormat | OpenGLWindow.cpp:1194-1219 | RGB and BGR upload as GL_RGB, RGBA and BGRA as GL_RGBA, and every other format has no upload format |
| Pixels.UploadBuffer | OpenGLWindow.cpp:1191-1192 | the upload buffer holds width·height·bytes-per-pixel bytes |
| Pixels.UploadKeepsRgb | OpenGLWindow.cpp:1191-1195 | an RGB or RGBA bitmap is uploaded byte for byte as mapped |
| Pixels.UploadSwapsBgr | OpenGLWindow.cpp:1196-1211 | a BGR or BGRA bitmap is uploaded with red and blue of every pixel exchanged |
| TextLayout.CDivRem | OpenGLWindow.cpp:1569-1570 | C's truncating / and %: quotient·divisor + remainder = dividend, and the remainder is smaller than the divisor in magnitude and has the dividend's sign |
| TextLayout.WidthSumConcat | OpenGLWindow.cpp:1537-1540 | the summed width of a concatenation is the sum of the widths |
| TextLayout.Start2D | OpenGLWindow.cpp:1531-1554 | LEFT ends the text at the anchor, CENTER centres it, RIGHT starts it there; BELOW puts its top at the anchor, CENTER centres it vertically, ABOVE puts its base there |
| TextLayout.Start3D | OpenGLWindow.cpp:1635-1670 | as Start2D, with room for the marker: RIGHT starts and LEFT ends 2·pointSize clear of it, and with CENTER alignment ABOVE and BELOW clear it vertically by 2·pointSize |
| TextLayout.AtlasCellInsideImageWidth | OpenGLWindow.cpp:1556-1569 | for every character from startChar on, with no upper bound, the cell's left edge and right edge (left + cellWidth) lie within the image width |
| TextLayout.AtlasCellInsideImage | OpenGLWindow.cpp:1556-1570 | every character from startChar up to the atlas capacity has a cell lying wholly inside the font image |
| TextLayout.AboveCapacityLeavesAtlas | OpenGLWindow.cpp:1556-1570 | a character at or past startChar + characters per line × whole rows gets a cell whose bottom edge (top + cellHeight) lies below the image |
| TextLayout.AtlasCellInjective | OpenGLWindow.cpp:1556-1570 | distinct characters get distinct atlas cells |
| TextLayout.BelowStartCharLeavesAtlas | OpenGLWindow.cpp:1569-1570 | a character below startChar gets a cell at a negative offset, outside the image |
| TextLayout.GlyphQuad | OpenGLWindow.cpp:1561-1615 | a glyph quad carries the anchor and the colour on all six vertices, starts at the pen position and is as wide as the character's scaled width |
| TextLayout.GlyphUpright | OpenGLWindow.cpp:1561-1578 | the glyph samples its own atlas rectangle, charWidth wide and fontHeight high, the right way up, and spans height vertically |
| TextLayout.GlyphFacesViewer | OpenGLWindow.cpp:1561-1615 | both triangles of a glyph of positive width are wound counter-clockwise, facing the viewer |
| TextLayout.TextQuads | OpenGLWindow.cpp:1557-1617 | one quad per character, the i-th being the glyph of character i at the pen position reached after the first i characters |
| TextLayout.TextQuadsExtend | OpenGLWindow.cpp:1557-1617 | laying out one more character appends exactly that character's glyph |
| TextLayout.TextQuadsCarry | OpenGLWindow.cpp:1557-1617 | every quad of a string carries the anchor and the colour |
| TextLayout.TextQuadsAbut | OpenGLWindow.cpp:1557-1617 | consecutive glyphs abut; the first starts at the start position and the last ends exactly the scaled string width later |
| TextLayout.PointQuad | OpenGLWindow.cpp:1735-1781 | the marker quad carries the anchor and colour on all six vertices |
| FontData.GetNext | OpenGLWindow.cpp:1432-1445 | the token is the longest separator-free run from the position, and the reader stops just past the separator that ends it, or at the end |
| FontData.NextFieldUnique | OpenGLWindow.cpp:1432-1445 | that description fixes the token and the next position uniquely |
| FontData.ReadsWrittenField | OpenGLWindow.cpp:1432-1445 | a field written with any separator after it is read back exactly, and the reader continues right after the separator |
| FontData.EmptyAtEnd | OpenGLWindow.cpp:1474-1477 | at the end of the data the token is empty, which ends the metrics loop |
| Textures.Texture.constructor | OpenGLWindow.cpp:1243-1250 | a new unit has no triangles, no texture and a pending rebuild |
| Textures.Texture.AddTriangleVT | OpenGLWindow.cpp:1355-1384 | appends the flat-shaded textured triangle and flags a rebuild |
| Textures.Texture.AddTriangleVNT | OpenGLWindow.cpp:1387-1415 | appends the textured triangle with its normals and flags a rebuild |
| Textures.Texture.ClearTriangles | OpenGLWindow.h:137 | empties the list, leaves the flag and the buffer as they were, and keeps the invariant |
| Textures.Texture.SetTriangleColor | OpenGLWindow.cpp:1268-1280 | repaints triangle trinum in the list and patches the same element of the buffer; an out-of-range index changes nothing |
| Textures.Texture.GetTriangleColor | OpenGLWindow.cpp:1283-1292 | the colour of vertex 0 of an in-range triangle, zero otherwise |
| Textures.Texture.Render | OpenGLWindow.cpp:1339-1352 | a pending rebuild uploads the list and clears the flag; afterwards the drawn triangles are exactly the list |
| Textures.Texture.PickTriangle | OpenGLWindow.cpp:1418-1427 | the loop returns the scan of its triangles' distances, i.e. the first nearest triangle hit below mindist and the lowered minimum |
| Textures.Texture.LoadTextureFromBitmap | OpenGLWindow.cpp:1148-1240 | each outcome happens exactly under its condition: map failure, no pixels, unknown format, OpenGL error, success; the texture name survives only on success; the image reaching glTexImage2D has the mapped format's GL layout, the bitmap's size and the copied bytes with red and blue exchanged for BGR and BGRA; the caller's bitmap is never deleted |
| Textures.Texture.LoadTextureFromBitmapAsWritten | OpenGLWindow.cpp:1212-1218 | the same outcomes, and the loader deletes the bitmap it was handed exactly on the unknown-format path |
| Textures.Texture.LoadTextureFromFile | OpenGLWindow.cpp:1107-1123 | a file that cannot be opened is reported exactly in that case and leaves the texture name and image as they were; an opened file has exactly the bitmap loader's outcome (`LoadOutcome`: status conditions, texture name, uploaded image); the bitmap is deleted exactly once on every path |
| Textures.Texture.LoadTextureFromFileAsWritten | OpenGLWindow.cpp:1107-1123 | the same outcome and texture state as the corrected file loader; over the loader as written, the bitmap is deleted twice exactly when it is of unknown format, once otherwise |
| Textures.Texture.LoadTextureFromResource | OpenGLWindow.cpp:1127-1145 | the bitmap read from the resource has exactly the bitmap loader's outcome (`LoadOutcome`) and is deleted exactly once |
| Textures.Texture.LoadTextureFromResourceAsWritten | OpenGLWindow.cpp:1127-1145 | the same outcome and texture state; over the loader as written, it is deleted twice exactly when it is of unknown format, once otherwise |
| Textures.UnknownFormatFileDeletedTwice | OpenGLWindow.cpp:1107-1123 | as written, a one-pixel bitmap file in an unknown format is deleted twice |
| Textures.UnknownFormatFileDeletedOnce | OpenGLWindow.cpp:1107-1123 | through the intended loader the same file is deleted once |
| Fonts.Font.constructor | OpenGLWindow.cpp:1449-1461 | a new font has empty lists and buffers, both rebuilds pending, and a marker size of 0.05 |
| Fonts.Font.MeasureText | OpenGLWindow.cpp:1537-1540 | the width loop computes the sum of the characters' widths |
| Fonts.Font.LayOut | OpenGLWindow.cpp:1557-1617 | the glyph loop produces exactly the layout TextQuads |
| Fonts.Font.AddText2D | OpenGLWindow.cpp:1518-1620 | appends the string's glyphs at the start Start2D gives for its scaled width, anchored at (centerx, centery, 0), and flags a 2D rebuild; world text and markers are untouched |
| Fonts.Font.AddText3D | OpenGLWindow.cpp:1623-1785 | appends the glyphs at the start Start3D gives, anchored at pos, and a marker at pos when point is set; flags a 3D rebuild; screen text is untouched |
| Fonts.Font.ClearText2D | OpenGLWindow.h:196 | empties the screen text and flags its rebuild |
| Fonts.Font.ClearText3D | OpenGLWindow.h:197 | empties the world text and the markers and flags their rebuild |
| Fonts.Font.Render2D | OpenGLWindow.cpp:1917-1923 | a pending rebuild uploads the screen text; afterwards its buffer equals its list |
| Fonts.Font.Render3D | OpenGLWindow.cpp:1975-1987 | the depth test follows depthtext; a pending rebuild uploads world text and markers; afterwards both buffers equal their lists |
| Fonts.Font.PickPoint | OpenGLWindow.cpp:2067-2080 | returns the first nearest marker hit below mindist and the lowered minimum, −1 when none |
| Fonts.Font.SetPointColor | OpenGLWindow.cpp:2083-2100 | repaints the marker in the list and patches the same element of the marker buffer; out of range nothing changes |
| Fonts.Font.GetPointColor | OpenGLWindow.cpp:2103-2113 | the colour of the marker's first vertex, zero out of range |
| Windows.Window.constructor | OpenGLWindow.cpp:328-368 | camera at (0, 0, 5) looking at the origin with y up, far plane 100, back-face culling on, depth-tested text off, no geometry, a fresh default font |
| Windows.Window.ClearTextures | OpenGLWindow.cpp:445-450 | drops every texture unit; the colour list and buffer, the flag, the camera and the switches are unchanged |
| Windows.Window.ClearData | OpenGLWindow.cpp:453-462 | empties the colour list and every unit's triangle list, raises no flag, and keeps the units, their buffers and textures, the camera and the switches |
| Windows.Window.AddTexture | OpenGLWindow.cpp:493-503 | the newly loaded unit goes to the end of the list and its index (the old length) is returned; its status, texture name and image are the bitmap loader's outcome on a fresh unit; existing units, the colour data, the camera and the switches are kept |
| Windows.Window.AddTextureFromFile | OpenGLWindow.cpp:481-490 | the same for a texture loaded from a file; the unit is added, with no texture and no image, even when the file cannot be opened |
| Windows.Window.AddTriangleVC | OpenGLWindow.cpp:664-688 | appends the flat-shaded colour triangle and flags a rebuild; buffer, units, camera and switches are unchanged |
| Windows.Window.AddTriangleVNC | OpenGLWindow.cpp:691-713 | appends the colour triangle with its normals and flags a rebuild; buffer, units, camera and switches are unchanged |
| Windows.Window.AddTriangleVT | OpenGLWindow.cpp:716-726 | appends the textured triangle to unit texid and flags its rebuild; its buffer, texture name and image are unchanged |
| Windows.Window.AddTriangleVNT | OpenGLWindow.cpp:729-739 | appends the textured triangle with normals to unit texid and flags its rebuild; its buffer, texture name and image are unchanged |
| Windows.Window.AddText2D | OpenGLWindow.cpp:634-646 | an empty string adds nothing and flags nothing; otherwise the font's screen-text layout is appended; world text, its flag and all three font buffers are unchanged |
| Windows.Window.AddText3D | OpenGLWindow.cpp:649-661 | the font's world-text layout, and a marker when point is set, are appended; screen text, its flag and all three font buffers are unchanged |
| Windows.Window.ClearText2D | OpenGLWindow.cpp:465-470 | the font's screen text is emptied; world text, its flag and the font buffers are unchanged |
| Windows.Window.ClearText3D | OpenGLWindow.cpp:473-478 | the font's world text and markers are emptied; screen text, its flag and the font buffers are unchanged |
| Windows.Window.Render | OpenGLWindow.cpp:545-621 | every pending rebuild is done, after which each buffer draws exactly its list: the colour buffer is the list when a rebuild was pending and otherwise unchanged, and each unit's buffer likewise; texture names and images are unchanged; the frame culls back faces by backFaceCull and depth-tests world text by depthText; no list, switch or camera setting changes |
| Windows.Window.BackFaceCull | OpenGLWindow.h:228 | sets the culling switch; the lists, buffers, units, depth switch and camera are unchanged |
| Windows.Window.DepthText | OpenGLWindow.h:230 | sets the depth-test switch for world text; the lists, buffers, units, culling switch and camera are unchanged |
| Windows.Window.SetCamera | OpenGLWindow.cpp:624-631 | sets the camera position, look-at point and up vector and nothing else |
| Windows.Window.SetColorTriangleColor | OpenGLWindow.cpp:897-909 | repaints colour triangle trinum and patches the colour buffer; out of range nothing changes; no flag, camera or switch changes |
| Windows.Window.GetColorTriangleColor | OpenGLWindow.cpp:912-921 | the colour of vertex 0 of an in-range colour triangle, zero otherwise |
| Windows.Window.SetElementColor | OpenGLWindow.cpp:881-894 | repaints exactly the element the pick names (the marker, the colour triangle or the triangle of the named unit) and patches that one element of its buffer (the marker buffer, the colour buffer or the unit's buffer); a NONE pick changes nothing; no rebuild flag, texture, text, camera or switch changes |
| Windows.Window.UnitDistances | OpenGLWindow.cpp:838-839 | one candidate list per texture unit, that unit's triangle distances |
| Windows.Window.PickTextures | OpenGLWindow.cpp:835-844 | the unit loop computes the unit scan of all units' distances from the far plane |
| Windows.Window.PickColorTriangles | OpenGLWindow.cpp:846-852 | the colour loop lowers the minimum as the scan does, and a hit replaces the textured candidate by colour triangle kc |
| Windows.Window.PickElement | OpenGLWindow.cpp:828-878 | the result is the decision on the current geometry from the far plane, with the colour of the picked element, so the Picking lemmas give its meaning |

## Left out

- OpenGL itself is not modelled: contexts, shaders, VAO and VBO names, vertex attribute layout, draw calls, texture parameters and mipmaps. A buffer is the list last uploaded to it. The error `glGetError` reports after a texture upload is a parameter (`glFailed`), and the name `glGenTextures` hands out is a parameter (`glName`).
- GL object lifetimes: `~GLTexture` deletes its texture, so a unit copied when `textureList` reallocates frees a texture the live copy still uses. `Create3DArrays` frees the marker buffer with `glDeleteVertexArrays` instead of `glDeleteBuffers`. Neither object lifetime is modelled.
- The GLFW window, the event callbacks, the mouse position, the light and ambient settings, `CreateRay` and the projection and view matrices. `PickElement` takes the ray direction as a parameter; the ray starts at the camera position, as in the source.
- `AddModel`, the Wavefront OBJ reader, is not part of this model.
- Reading a bitmap from a file or resource (FMX `TBitmap` loading and `Map`) is a parameter: the mapped bitmap, or None when the file could not be opened. `FlipVertical` (the `flip` argument) is not modelled. Exceptions other than the file-open error of `LoadTextureFromFile` are not modelled. `LoadTextureFromResource` takes the bitmap read from the resource as a parameter; the resource stream and its disposal are not modelled.
- Fonts.Font.constructor: the metrics are a parameter instead of being parsed from the font resource with `getNext`. `getNext` is modelled, but the parsing loop and `std::stoi` are not. The `fontTexture`/`pointTexture` loading and binding are not modelled.
- Floating point is modelled as exact real arithmetic: no rounding and no float overflow. The square root in `RaySphere` is a parameter.
- Vertices.FaceNormal: `glm::triangleNormal` normalises the cross product, which needs a square root; the model leaves the normalisation out, so `FaceNormal`, and with it the normals `Vertices.ColorTriangleVC` and `Vertices.TextureTriangleVT` store, is the unnormalised cross product (same direction, not unit length).
- TextLayout.StringSize: the C++ accumulates a float sum of integer widths; the model sums integers and scales once, equal under exact arithmetic.
- Windows.Window.AddText2D: the source also returns early when `str` is a null pointer (cpp:644). A `seq<char>` has no null, so that path is folded into the empty-string return it shares.
- Fonts.Font.AddText2D, Fonts.Font.AddText3D: they require `LayoutReady` (256 widths, nonzero cell width, characters per line, font height and image size) and ASCII text. With a zero divisor the source divides by zero, and characters outside 1..127 index `charWidth` with a negative or out-of-range value. The source leaves those cases undefined.
- Windows.Window.AddTriangleVT, Windows.Window.AddTriangleVNT, Windows.Window.SetElementColor: they require the texture index to name an existing unit. The source indexes `textureList` unchecked.
- Windows.Window.PickElement: for a NONE result the source leaves group, index and colour uninitialised; the model sets them to 0, 0 and zero colour. `Compare` never reads them for NONE.
- Textures.Texture.LoadTextureFromBitmap: the resetting of VAO and VBO to 0 is not modelled (it only matters when a unit is reloaded). Its requires `mapped ==> WellMapped(bmp)` states that the map holds width·height·bytes-per-pixel bytes and that BGR/BGRA pixels are at least 3/4 bytes wide, which the source assumes of FMX.
- The `TOpenGLWindow` destructor and the deletion of the default font are not modelled.

## Findings

| source | as written | input that shows it | evidently intended | confidence | as-written member | corrected member |
|---|---|---|---|---|---|---|
| OpenGLWindow.cpp:1212-1218 | on an unknown pixel format `LoadTextureFromBitmap` runs `delete textureBMP` on a bitmap it does not own; `LoadTextureFromFile` (line 1122) and `LoadTextureFromResource` (line 1144) then delete it again, and `AddTexture(TBitmap*)` leaves its caller (Main.cpp:186 passes an image control's bitmap) with a dangling pointer | a bitmap file whose mapped pixel format is, for example, RGBA16 | the loader only unmaps the bitmap and frees its own buffer, leaving the bitmap to its owner | high, not executed | Textures.Texture.LoadTextureFromFileAsWritten | Textures.Texture.LoadTextureFromFile |
