/**
 * The arithmetic of GLFont's text layout: the bitmap-font metrics, C's
 * truncating integer division, the width of a string, where a label starts
 * for each alignment, the atlas cell of a character and the textured quad
 * of one glyph.
 */
module TextLayout {
  import opened Linear
  import opened Vertices

  /** GLTextPos: LEFT, CENTER, RIGHT horizontally; ABOVE, CENTER, BELOW vertically. */
  datatype TextPos = LEFT | CENTER | RIGHT | ABOVE | BELOW

  /**
   * The metrics read from the font's data resource: the base width of each of
   * the 256 character codes, the atlas image size, the cell size, the first
   * character in the atlas and the glyph height, all in pixels.
   */
  datatype FontMetrics = FontMetrics(charWidth: seq<int>, imageWidth: int, imageHeight: int,
                                     cellWidth: int, cellHeight: int, startChar: int, fontHeight: int)

  /** C's truncating integer division (the quotient is rounded toward zero). */
  function CDiv(a: int, b: int): int
    requires b != 0
  {
    var q := Abs(a) / Abs(b);
    if (a < 0) != (b < 0) then -q else q
  }

  /** C's remainder, the partner of CDiv. */
  function CRem(a: int, b: int): int
    requires b != 0
  {
    a - b * CDiv(a, b)
  }

  function Abs(a: int): nat { if a < 0 then -a else a }

  /**
   * Division and remainder as C defines them: the quotient times the divisor
   * plus the remainder gives back the dividend, the remainder is smaller than
   * the divisor in magnitude and never has the opposite sign of the dividend.
   */
  lemma CDivRem(a: int, b: int)
    requires b != 0
    ensures CDiv(a, b) * b + CRem(a, b) == a
    ensures Abs(CRem(a, b)) < Abs(b)
    ensures a >= 0 ==> CRem(a, b) >= 0
    ensures a <= 0 ==> CRem(a, b) <= 0
  {
    var q := Abs(a) / Abs(b);
    var r := Abs(a) % Abs(b);
    assert Abs(a) == Abs(b) * q + r && 0 <= r < Abs(b);
    DivisorTimesQuotient(a, b, q);
    assert CRem(a, b) == (if a < 0 then -r else r);
  }

  /** The divisor times C's quotient has the dividend's sign and the magnitude |b| * (|a| / |b|). */
  lemma DivisorTimesQuotient(a: int, b: int, q: int)
    requires b != 0 && q == Abs(a) / Abs(b)
    ensures b * CDiv(a, b) == (if a < 0 then -(Abs(b) * q) else Abs(b) * q)
  {
    if b < 0 {
      assert Abs(b) * q == -(b * q);
      if a < 0 {
        assert CDiv(a, b) == q;
      } else {
        assert CDiv(a, b) == -q;
        assert b * -q == -(b * q);
      }
    } else {
      assert Abs(b) == b;
      if a < 0 {
        assert CDiv(a, b) == -q;
        assert b * -q == -(b * q);
      } else {
        assert CDiv(a, b) == q;
      }
    }
  }

  /** Characters per atlas row. */
  function CharsPerLine(m: FontMetrics): int
    requires m.cellWidth != 0
  {
    CDiv(m.imageWidth, m.cellWidth)
  }

  /**
   * What the layout code relies on: a width for every character code, no
   * zero divisor among the integer divisions and no zero among the pixel
   * sizes it divides by.
   */
  predicate LayoutReady(m: FontMetrics)
  {
    && |m.charWidth| == 256
    && m.cellWidth != 0 && CharsPerLine(m) != 0
    && m.fontHeight != 0 && m.imageWidth != 0 && m.imageHeight != 0
  }

  /** Text the layout accepts: ASCII characters, NUL excluded since it ends a C string. */
  predicate IsAscii(s: seq<char>)
  {
    forall i :: 0 <= i < |s| ==> 0 < s[i] as int < 128
  }

  /** The sum of the base widths of the characters of s, in font pixels. */
  function WidthSum(m: FontMetrics, s: seq<char>): int
    requires |m.charWidth| == 256 && IsAscii(s)
    decreases |s|
  {
    if s == [] then 0
    else WidthSum(m, s[..|s| - 1]) + m.charWidth[s[|s| - 1] as int]
  }

  /** Adding one character adds its base width. */
  lemma WidthSumAppend(m: FontMetrics, s: seq<char>, c: char)
    requires |m.charWidth| == 256 && IsAscii(s) && 0 < c as int < 128
    ensures IsAscii(s + [c])
    ensures WidthSum(m, s + [c]) == WidthSum(m, s) + m.charWidth[c as int]
  {
    assert (s + [c])[..|s|] == s;
  }

  /** Widths add up over concatenation. */
  lemma AsciiConcat(s: seq<char>, t: seq<char>)
    requires IsAscii(s) && IsAscii(t)
    ensures IsAscii(s + t)
  {
    forall i | 0 <= i < |s + t| ensures 0 < (s + t)[i] as int < 128 {
      if i < |s| { assert (s + t)[i] == s[i]; } else { assert (s + t)[i] == t[i - |s|]; }
    }
  }

  /** Widths add up over concatenation. */
  lemma {:induction false} WidthSumConcat(m: FontMetrics, s: seq<char>, t: seq<char>)
    requires |m.charWidth| == 256 && IsAscii(s) && IsAscii(t)
    ensures IsAscii(s + t)
    ensures WidthSum(m, s + t) == WidthSum(m, s) + WidthSum(m, t)
    decreases |t|
  {
    AsciiConcat(s, t);
    if t == [] {
      assert s + t == s;
    } else {
      var t' := t[..|t| - 1];
      AsciiPrefix(t, |t| - 1);
      WidthSumConcat(m, s, t');
      assert (s + t)[..|s + t| - 1] == s + t';
      assert (s + t)[|s + t| - 1] == t[|t| - 1];
    }
  }

  /** A prefix of ASCII text is ASCII. */
  lemma AsciiPrefix(s: seq<char>, n: nat)
    requires IsAscii(s) && n <= |s|
    ensures IsAscii(s[..n])
  {
    forall i | 0 <= i < n ensures 0 < s[..n][i] as int < 128 {
      assert s[..n][i] == s[i];
    }
  }

  /** Font pixels to output units: the requested height over the font's pixel height. */
  function ScaleFor(m: FontMetrics, height: real): real
    requires m.fontHeight != 0
  {
    height / m.fontHeight as real
  }

  /** The drawn width of s at the given height. */
  function StringSize(m: FontMetrics, s: seq<char>, height: real): real
    requires LayoutReady(m) && IsAscii(s)
  {
    WidthSum(m, s) as real * ScaleFor(m, height)
  }

  /**
   * Where the first glyph of a 2D label starts, relative to its anchor:
   * LEFT puts the text to the left of the anchor, CENTER centres it, RIGHT
   * starts it there; BELOW puts it under the anchor, CENTER centres it
   * vertically, ABOVE starts it there.
   */
  function Start2D(size: real, height: real, horiz: TextPos, vert: TextPos): (start: (real, real))
    ensures horiz == LEFT ==> start.0 + size == 0.0
    ensures horiz == CENTER ==> start.0 + size / 2.0 == 0.0
    ensures horiz != LEFT && horiz != CENTER ==> start.0 == 0.0
    ensures vert == BELOW ==> start.1 + height == 0.0
    ensures vert == CENTER ==> start.1 + height / 2.0 == 0.0
    ensures vert != BELOW && vert != CENTER ==> start.1 == 0.0
  {
    var dx := if horiz == LEFT then -size else if horiz == CENTER then -size / 2.0 else 0.0;
    var dy := if vert == BELOW then -height else if vert == CENTER then -height / 2.0 else 0.0;
    (dx, dy)
  }

  /**
   * Where the first glyph of a 3D label starts, relative to its anchor point.
   * With a point marker, LEFT and RIGHT labels keep a gap of two marker
   * half-sizes from it, and a horizontally centred label moves that gap up
   * (ABOVE) or down (BELOW) instead.
   */
  function Start3D(size: real, height: real, horiz: TextPos, vert: TextPos, point: bool, pointSize: real): (start: (real, real))
    ensures horiz == RIGHT ==> start.0 == (if point then 2.0 * pointSize else 0.0)
    ensures horiz == LEFT ==> start.0 + size == (if point then -2.0 * pointSize else 0.0)
    ensures horiz == CENTER ==> start.0 + size / 2.0 == 0.0
    ensures horiz in {ABOVE, BELOW} ==> start.0 == 0.0
    ensures vert == ABOVE ==> start.1 == (if horiz == CENTER && point then 2.0 * pointSize else 0.0)
    ensures vert == BELOW ==> start.1 + height == (if horiz == CENTER && point then -2.0 * pointSize else 0.0)
    ensures vert == CENTER ==> start.1 + height / 2.0 == 0.0
    ensures vert in {LEFT, RIGHT} ==> start.1 == 0.0
  {
    var x := 0.0;
    var x := if horiz == RIGHT && point then x + 2.0 * pointSize else x;
    var x := if horiz == LEFT then (x - size) - (if point then 2.0 * pointSize else 0.0) else x;
    var x := if horiz == CENTER then x - size / 2.0 else x;
    var y := 0.0;
    var y := if vert == ABOVE && horiz == CENTER && point then y + 2.0 * pointSize else y;
    var y := if vert == BELOW then (y - height) - (if horiz == CENTER && point then 2.0 * pointSize else 0.0) else y;
    var y := if vert == CENTER then y - height / 2.0 else y;
    (x, y)
  }

  /** Top-left pixel of the atlas cell of character code c. */
  function AtlasCell(m: FontMetrics, c: int): (int, int)
    requires LayoutReady(m)
  {
    var k := c - m.startChar;
    (m.cellWidth * CRem(k, CharsPerLine(m)), m.cellHeight * CDiv(k, CharsPerLine(m)))
  }

  /** Number of whole cell rows in the atlas image. */
  function AtlasRows(m: FontMetrics): int
    requires m.cellHeight != 0
  {
    CDiv(m.imageHeight, m.cellHeight)
  }

  lemma MulLess(a: int, b: int, c: int)
    requires 0 <= a < b && c > 0
    ensures a * c + c <= b * c
  {
    assert b * c == a * c + c + (b - a - 1) * c;
  }

  /** A product with a positive factor is positive only if the other factor is. */
  lemma PositiveFactor(a: int, b: int)
    requires b > 0 && a * b > 0
    ensures a > 0
  {
  }

  /** The quotient of a k below cpl * rows lies in 0 .. rows - 1. */
  lemma QuotientBounds(k: int, cpl: int, q: int, r: int, rows: int)
    requires cpl > 0 && 0 <= r < cpl && q * cpl + r == k && 0 <= k < cpl * rows
    ensures 0 <= q < rows
  {
    assert (q + 1) * cpl == k - r + cpl;
    PositiveFactor(q + 1, cpl);
    assert (rows - q) * cpl == cpl * rows - k + r;
    PositiveFactor(rows - q, cpl);
  }

  /**
   * For positive cells no wider than the image, every character from the
   * start character on, however far past the atlas capacity, has its cell
   * within the image horizontally: the column is the remainder modulo the
   * characters per line.
   */
  lemma AtlasCellInsideImageWidth(m: FontMetrics, c: int)
    requires LayoutReady(m)
    requires 0 < m.cellWidth <= m.imageWidth
    requires m.startChar <= c
    ensures var (left, _) := AtlasCell(m, c); 0 <= left && left + m.cellWidth <= m.imageWidth
  {
    var cpl := CharsPerLine(m);
    CDivRem(c - m.startChar, cpl);
    CDivRem(m.imageWidth, m.cellWidth);
    var r := CRem(c - m.startChar, cpl);
    assert 0 <= r < cpl;
    MulLess(r, cpl, m.cellWidth);
    NonNegProduct(m.cellWidth, r);
    assert cpl * m.cellWidth <= m.imageWidth;
  }

  /**
   * For a well-formed atlas (positive cells no larger than the image), every
   * character from the start character up to the last whole cell has its
   * cell wholly inside the image.
   */
  lemma AtlasCellInsideImage(m: FontMetrics, c: int)
    requires LayoutReady(m)
    requires 0 < m.cellWidth <= m.imageWidth && 0 < m.cellHeight <= m.imageHeight
    requires m.startChar <= c < m.startChar + CharsPerLine(m) * AtlasRows(m)
    ensures var (left, top) := AtlasCell(m, c);
            0 <= left && left + m.cellWidth <= m.imageWidth && 0 <= top && top + m.cellHeight <= m.imageHeight
  {
    AtlasCellInsideImageWidth(m, c);
    var k := c - m.startChar;
    var cpl := CharsPerLine(m);
    var rows := AtlasRows(m);
    CDivRem(k, cpl);
    CDivRem(m.imageHeight, m.cellHeight);
    var q := CDiv(k, cpl);
    var r := CRem(k, cpl);
    assert 0 <= r < cpl;
    QuotientBounds(k, cpl, q, r, rows);
    MulLess(q, rows, m.cellHeight);
    NonNegProduct(m.cellHeight, q);
    assert rows * m.cellHeight <= m.imageHeight;
  }

  /**
   * A character at or past the atlas capacity (characters per line times
   * whole rows) gets a cell reaching below the image: the row index is at
   * least the number of whole rows.
   */
  lemma AboveCapacityLeavesAtlas(m: FontMetrics, c: int)
    requires LayoutReady(m)
    requires 0 < m.cellWidth <= m.imageWidth && 0 < m.cellHeight <= m.imageHeight
    requires m.startChar + CharsPerLine(m) * AtlasRows(m) <= c
    ensures var (_, top) := AtlasCell(m, c); top + m.cellHeight > m.imageHeight
  {
    var k := c - m.startChar;
    var cpl := CharsPerLine(m);
    var rows := AtlasRows(m);
    CDivRem(m.imageWidth, m.cellWidth);
    assert cpl > 0;
    CDivRem(k, cpl);
    CDivRem(m.imageHeight, m.cellHeight);
    var q := CDiv(k, cpl);
    var r := CRem(k, cpl);
    assert 0 <= r < cpl;
    QuotientAtLeast(k, cpl, q, r, rows);
    MulLess(rows, q + 1, m.cellHeight);
    assert m.imageHeight < rows * m.cellHeight + m.cellHeight;
    assert m.cellHeight * q + m.cellHeight == (q + 1) * m.cellHeight;
  }

  /** The quotient of a k from cpl * rows on is at least rows. */
  lemma QuotientAtLeast(k: int, cpl: int, q: int, r: int, rows: int)
    requires cpl > 0 && 0 <= r < cpl && q * cpl + r == k && cpl * rows <= k
    ensures rows <= q
  {
    assert (q + 1 - rows) * cpl == k - cpl * rows + cpl - r;
    PositiveFactor(q + 1 - rows, cpl);
  }

  /** A product of a positive and a non-negative factor is non-negative. */
  lemma NonNegProduct(a: int, b: int)
    requires a > 0 && b >= 0
    ensures a * b >= 0
  {
  }

  /** With positive cells, characters from the start character on never share a cell. */
  lemma AtlasCellInjective(m: FontMetrics, c1: int, c2: int)
    requires LayoutReady(m) && m.cellWidth > 0 && m.cellHeight > 0
    requires AtlasCell(m, c1) == AtlasCell(m, c2)
    ensures c1 == c2
  {
    var cpl := CharsPerLine(m);
    CDivRem(c1 - m.startChar, cpl);
    CDivRem(c2 - m.startChar, cpl);
    var q1, r1 := CDiv(c1 - m.startChar, cpl), CRem(c1 - m.startChar, cpl);
    var q2, r2 := CDiv(c2 - m.startChar, cpl), CRem(c2 - m.startChar, cpl);
    MulCancel(m.cellWidth, r1, r2);
    MulCancel(m.cellHeight, q1, q2);
  }

  lemma MulCancel(k: int, a: int, b: int)
    requires k != 0 && k * a == k * b
    ensures a == b
  {
  }

  /**
   * A character code below the start character gets a cell left of or
   * above the image origin (texture coordinates outside the atlas).
   */
  lemma BelowStartCharLeavesAtlas(m: FontMetrics, c: int)
    requires LayoutReady(m) && m.cellWidth > 0 && m.cellHeight > 0 && m.imageWidth > 0
    requires c < m.startChar
    ensures var (left, top) := AtlasCell(m, c); left <= 0 && top <= 0 && (left < 0 || top < 0)
  {
    var k := c - m.startChar;
    var cpl := CharsPerLine(m);
    PositiveCharsPerLine(m);
    CDivRem(k, cpl);
    NegativeCell(k, cpl, CDiv(k, cpl), CRem(k, cpl), m.cellWidth, m.cellHeight);
  }

  /** With positive image width and cell width, a ready layout has at least one character per line. */
  lemma PositiveCharsPerLine(m: FontMetrics)
    requires LayoutReady(m) && m.cellWidth > 0 && m.imageWidth > 0
    ensures CharsPerLine(m) > 0
  {
  }

  /**
   * The arithmetic behind BelowStartCharLeavesAtlas: for a negative offset k,
   * C's quotient and remainder are both non-positive and not both zero, so
   * scaling them by positive cell sizes gives no positive and some negative
   * offset.
   */
  lemma NegativeCell(k: int, cpl: int, q: int, r: int, w: int, h: int)
    requires cpl > 0 && k < 0 && -cpl < r <= 0 && q * cpl + r == k
    requires w > 0 && h > 0
    ensures w * r <= 0 && h * q <= 0 && (w * r < 0 || h * q < 0)
  {
    QuotientNonPositive(k, cpl, q, r);
    NonPositiveProduct(w, r);
    NonPositiveProduct(h, q);
    if r == 0 {
      assert q * cpl == k;
      assert q < 0;
    }
  }

  /** A negative dividend has a non-positive C quotient. */
  lemma QuotientNonPositive(k: int, cpl: int, q: int, r: int)
    requires cpl > 0 && k < 0 && -cpl < r <= 0 && q * cpl + r == k
    ensures q <= 0
  {
    if q > 0 {
      MulLess(0, q, cpl);
    }
  }

  /** A positive factor keeps the sign of the other: negative, or zero. */
  lemma NonPositiveProduct(a: int, b: int)
    requires a > 0 && b <= 0
    ensures a * b <= 0
    ensures b < 0 ==> a * b < 0
  {
  }

  function Corner(pos: Vec3, center: Vec3, color: Vec3, tex: Vec2): BillboardVertex
  {
    BillboardVertex(pos, center, color, tex)
  }

  /**
   * The quad over the rectangle with bottom-left p0 and top-right p2, as two
   * triangles BL-BR-TR and BL-TR-TL, each corner with its texture coordinate,
   * the label's centre and its colour.
   */
  function Quad(p0: Vec3, p1: Vec3, p2: Vec3, p3: Vec3, t0: Vec2, t1: Vec2, t2: Vec2, t3: Vec2,
                center: Vec3, color: Vec3): BillboardQuad
  {
    BillboardQuad(
      BillboardTriangle(Corner(p0, center, color, t0), Corner(p1, center, color, t1), Corner(p2, center, color, t2)),
      BillboardTriangle(Corner(p0, center, color, t0), Corner(p2, center, color, t2), Corner(p3, center, color, t3)))
  }

  /** Every corner of the quad carries the given centre and colour. */
  ghost predicate Carries(q: BillboardQuad, center: Vec3, color: Vec3)
  {
    && q.tri1.v0.center == center && q.tri1.v1.center == center && q.tri1.v2.center == center
    && q.tri2.v0.center == center && q.tri2.v1.center == center && q.tri2.v2.center == center
    && q.tri1.v0.color == color && q.tri1.v1.color == color && q.tri1.v2.color == color
    && q.tri2.v0.color == color && q.tri2.v1.color == color && q.tri2.v2.color == color
  }

  /** The quad of character c with its bottom-left corner at (x, y). */
  function GlyphQuad(m: FontMetrics, c: int, x: real, y: real, height: real, center: Vec3, color: Vec3): (q: BillboardQuad)
    requires LayoutReady(m) && 0 <= c < 256
    ensures Carries(q, center, color)
    ensures GlyphLeft(q) == x && GlyphRight(q) == x + m.charWidth[c] as real * ScaleFor(m, height)
  {
    var cw := m.charWidth[c] as real * ScaleFor(m, height);
    var (pixleft, pixtop) := AtlasCell(m, c);
    var texleft := pixleft as real / m.imageWidth as real;
    var textop := pixtop as real / m.imageHeight as real;
    var texw := m.charWidth[c] as real / m.imageWidth as real;
    var texh := m.fontHeight as real / m.imageHeight as real;
    Quad(Vec3(x, y, 0.0), Vec3(x + cw, y, 0.0), Vec3(x + cw, y + height, 0.0), Vec3(x, y + height, 0.0),
         Vec2(texleft, textop + texh), Vec2(texleft + texw, textop + texh), Vec2(texleft + texw, textop), Vec2(texleft, textop),
         center, color)
  }

  /** The glyph's left edge is at x and the right edge at x plus its scaled width. */
  function GlyphRight(q: BillboardQuad): real { q.tri1.v1.pos.x }
  function GlyphLeft(q: BillboardQuad): real { q.tri1.v0.pos.x }

  /**
   * A glyph is drawn upright: its bottom corners sample the bottom row of the
   * glyph's texture rectangle (image rows count down), its left corners the
   * left column, and the rectangle is as wide as the character and as high
   * as the font in the atlas.
   */
  lemma GlyphUpright(m: FontMetrics, c: int, x: real, y: real, height: real, center: Vec3, color: Vec3)
    requires LayoutReady(m) && 0 <= c < 256
    ensures var q := GlyphQuad(m, c, x, y, height, center, color);
            var (pixleft, pixtop) := AtlasCell(m, c);
            && q.tri1.v0.tex == Vec2(pixleft as real / m.imageWidth as real,
                                     (pixtop + m.fontHeight) as real / m.imageHeight as real)
            && q.tri1.v2.tex == Vec2((pixleft + m.charWidth[c]) as real / m.imageWidth as real,
                                     pixtop as real / m.imageHeight as real)
            && q.tri1.v0.tex.x == q.tri2.v2.tex.x && q.tri1.v1.tex.x == q.tri1.v2.tex.x
            && q.tri1.v0.tex.y == q.tri1.v1.tex.y && q.tri1.v2.tex.y == q.tri2.v2.tex.y
            && q.tri1.v0.pos.y == y && q.tri1.v2.pos.y == y + height
  {
    var (pixleft, pixtop) := AtlasCell(m, c);
    DivAdd(pixtop as real, m.fontHeight as real, m.imageHeight as real);
    DivAdd(pixleft as real, m.charWidth[c] as real, m.imageWidth as real);
  }

  lemma DivAdd(a: real, b: real, d: real)
    requires d != 0.0
    ensures a / d + b / d == (a + b) / d
  {
  }

  /**
   * Both triangles of a glyph of positive width and height wind counter-
   * clockwise in the label plane, so both face the viewer.
   */
  lemma GlyphFacesViewer(m: FontMetrics, c: int, x: real, y: real, height: real, center: Vec3, color: Vec3)
    requires LayoutReady(m) && 0 <= c < 256
    requires m.charWidth[c] > 0 && m.fontHeight > 0 && height > 0.0
    ensures var q := GlyphQuad(m, c, x, y, height, center, color);
            && Cross(Sub(q.tri1.v1.pos, q.tri1.v0.pos), Sub(q.tri1.v2.pos, q.tri1.v0.pos)).z > 0.0
            && Cross(Sub(q.tri2.v1.pos, q.tri2.v0.pos), Sub(q.tri2.v2.pos, q.tri2.v0.pos)).z > 0.0
  {
    var cw := m.charWidth[c] as real * ScaleFor(m, height);
    assert ScaleFor(m, height) > 0.0;
    assert cw > 0.0;
    assert cw * height > 0.0;
  }

  /**
   * The glyph quads of s, laid out left to right from (x0, y0): glyph i
   * starts at x0 plus the scaled width of the characters before it.
   */
  function TextQuads(m: FontMetrics, s: seq<char>, x0: real, y0: real, height: real, center: Vec3, color: Vec3): (qs: seq<BillboardQuad>)
    requires LayoutReady(m) && IsAscii(s)
    ensures |qs| == |s|
    ensures forall i :: 0 <= i < |s| ==> qs[i] == GlyphAt(m, s, i, x0, y0, height, center, color)
  {
    seq(|s|, i requires 0 <= i < |s| => GlyphAt(m, s, i, x0, y0, height, center, color))
  }

  /** Glyph i of s, once the characters before it have advanced the pen from x0. */
  function GlyphAt(m: FontMetrics, s: seq<char>, i: int, x0: real, y0: real, height: real, center: Vec3, color: Vec3): (q: BillboardQuad)
    requires LayoutReady(m) && IsAscii(s) && 0 <= i < |s|
  {
    assert IsAscii(s[..i]);
    GlyphQuad(m, s[i] as int, x0 + WidthSum(m, s[..i]) as real * ScaleFor(m, height), y0, height, center, color)
  }

  /** Glyph i is the glyph of character i drawn at the pen position reached before it. */
  lemma GlyphAtPen(m: FontMetrics, s: seq<char>, i: int, x0: real, x: real, y0: real, height: real, center: Vec3, color: Vec3)
    requires LayoutReady(m) && IsAscii(s) && 0 <= i < |s|
    requires IsAscii(s[..i]) && x == x0 + WidthSum(m, s[..i]) as real * ScaleFor(m, height)
    ensures GlyphAt(m, s, i, x0, y0, height, center, color) == GlyphQuad(m, s[i] as int, x, y0, height, center, color)
  {
  }

  /** The pen position after the first i characters of s. */
  function PenAt(m: FontMetrics, s: seq<char>, i: int, x0: real, height: real): real
    requires |m.charWidth| == 256 && m.fontHeight != 0 && 0 <= i <= |s| && IsAscii(s[..i])
  {
    x0 + WidthSum(m, s[..i]) as real * ScaleFor(m, height)
  }

  /**
   * One turn of the glyph loop: with the pen at the scaled width of the first
   * i characters, drawing character i there extends the quads of the prefix
   * by one.
   */
  lemma LayOutStep(m: FontMetrics, s: seq<char>, i: int, x0: real, x: real, y0: real, height: real,
                   center: Vec3, color: Vec3)
    requires LayoutReady(m) && IsAscii(s) && 0 <= i < |s|
    requires IsAscii(s[..i]) && x == PenAt(m, s, i, x0, height)
    ensures IsAscii(s[..i + 1])
    ensures TextQuads(m, s[..i + 1], x0, y0, height, center, color)
            == TextQuads(m, s[..i], x0, y0, height, center, color) + [GlyphQuad(m, s[i] as int, x, y0, height, center, color)]
  {
    TextQuadsExtend(m, s, i, x0, y0, height, center, color);
    GlyphAtPen(m, s, i, x0, x, y0, height, center, color);
  }

  /** The pen advanced by the scaled width cw of character i is the pen after i + 1 characters. */
  lemma PenStep(m: FontMetrics, s: seq<char>, i: int, x0: real, x: real, cw: real, height: real)
    requires |m.charWidth| == 256 && m.fontHeight != 0 && IsAscii(s) && 0 <= i < |s|
    requires IsAscii(s[..i]) && x == PenAt(m, s, i, x0, height)
    requires cw == m.charWidth[s[i] as int] as real * ScaleFor(m, height)
    ensures IsAscii(s[..i + 1]) && x + cw == PenAt(m, s, i + 1, x0, height)
  {
    PenAdvance(m, s, i, x0, x, ScaleFor(m, height));
  }

  /** Advancing the pen past character i keeps it at x0 plus the scaled width so far. */
  lemma PenAdvance(m: FontMetrics, s: seq<char>, i: int, x0: real, x: real, k: real)
    requires |m.charWidth| == 256 && IsAscii(s) && 0 <= i < |s|
    requires IsAscii(s[..i]) && x == x0 + WidthSum(m, s[..i]) as real * k
    ensures IsAscii(s[..i + 1])
    ensures x + m.charWidth[s[i] as int] as real * k == x0 + WidthSum(m, s[..i + 1]) as real * k
  {
    WidthSumAppend(m, s[..i], s[i]);
    assert s[..i] + [s[i]] == s[..i + 1];
    Distribute(WidthSum(m, s[..i]) as real, m.charWidth[s[i] as int] as real, k);
  }

  /** A glyph depends only on its character and the characters before it. */
  lemma GlyphAtPrefix(m: FontMetrics, s: seq<char>, t: seq<char>, j: int, x0: real, y0: real, height: real, center: Vec3, color: Vec3)
    requires LayoutReady(m) && IsAscii(s) && IsAscii(t) && 0 <= j < |s| && j < |t|
    requires s[..j + 1] == t[..j + 1]
    ensures GlyphAt(m, s, j, x0, y0, height, center, color) == GlyphAt(m, t, j, x0, y0, height, center, color)
  {
    assert s[j] == s[..j + 1][j] == t[..j + 1][j] == t[j];
    assert s[..j] == s[..j + 1][..j] == t[..j + 1][..j] == t[..j];
    assert IsAscii(s[..j]);
    var x := x0 + WidthSum(m, s[..j]) as real * ScaleFor(m, height);
    GlyphAtPen(m, s, j, x0, x, y0, height, center, color);
    GlyphAtPen(m, t, j, x0, x, y0, height, center, color);
  }

  /** Laying out one more character appends its glyph at the pen position. */
  lemma TextQuadsExtend(m: FontMetrics, s: seq<char>, i: int, x0: real, y0: real, height: real, center: Vec3, color: Vec3)
    requires LayoutReady(m) && IsAscii(s) && 0 <= i < |s|
    ensures IsAscii(s[..i]) && IsAscii(s[..i + 1])
    ensures TextQuads(m, s[..i + 1], x0, y0, height, center, color)
            == TextQuads(m, s[..i], x0, y0, height, center, color) + [GlyphAt(m, s, i, x0, y0, height, center, color)]
  {
    assert IsAscii(s[..i]) && IsAscii(s[..i + 1]);
    var long := TextQuads(m, s[..i + 1], x0, y0, height, center, color);
    var short := TextQuads(m, s[..i], x0, y0, height, center, color);
    var g := GlyphAt(m, s, i, x0, y0, height, center, color);
    forall j | 0 <= j <= i ensures long[j] == (short + [g])[j] {
      if j < i {
        GlyphAtPrefix(m, s[..i + 1], s[..i], j, x0, y0, height, center, color);
      } else {
        GlyphAtPrefix(m, s[..i + 1], s, j, x0, y0, height, center, color);
      }
    }
  }

  /** Every corner of every glyph of a label carries the label's centre and colour. */
  lemma TextQuadsCarry(m: FontMetrics, s: seq<char>, x0: real, y0: real, height: real, center: Vec3, color: Vec3)
    requires LayoutReady(m) && IsAscii(s)
    ensures var qs := TextQuads(m, s, x0, y0, height, center, color);
            forall i :: 0 <= i < |qs| ==> Carries(qs[i], center, color)
  {
  }

  /**
   * Consecutive glyphs abut: each glyph starts where the previous one ends,
   * the first starts at x0 and the last ends at x0 plus the drawn width of
   * the whole string.
   */
  lemma TextQuadsAbut(m: FontMetrics, s: seq<char>, x0: real, y0: real, height: real, center: Vec3, color: Vec3)
    requires LayoutReady(m) && IsAscii(s)
    ensures var qs := TextQuads(m, s, x0, y0, height, center, color);
            && (forall i :: 0 < i < |qs| ==> GlyphLeft(qs[i]) == GlyphRight(qs[i - 1]))
            && (|qs| > 0 ==> GlyphLeft(qs[0]) == x0)
            && (|qs| > 0 ==> GlyphRight(qs[|qs| - 1]) == x0 + StringSize(m, s, height))
  {
    var qs := TextQuads(m, s, x0, y0, height, center, color);
    forall i | 0 < i < |qs| ensures GlyphLeft(qs[i]) == GlyphRight(qs[i - 1]) {
      GlyphsAbut(m, s, i, x0, y0, height, center, color);
    }
    if |qs| > 0 {
      FirstGlyphStarts(m, s, x0, y0, height, center, color);
      LastGlyphEnds(m, s, x0, y0, height, center, color);
    }
  }

  lemma FirstGlyphStarts(m: FontMetrics, s: seq<char>, x0: real, y0: real, height: real, center: Vec3, color: Vec3)
    requires LayoutReady(m) && IsAscii(s) && 0 < |s|
    ensures GlyphLeft(GlyphAt(m, s, 0, x0, y0, height, center, color)) == x0
  {
    assert s[..0] == [];
  }

  lemma LastGlyphEnds(m: FontMetrics, s: seq<char>, x0: real, y0: real, height: real, center: Vec3, color: Vec3)
    requires LayoutReady(m) && IsAscii(s) && 0 < |s|
    ensures GlyphRight(GlyphAt(m, s, |s| - 1, x0, y0, height, center, color)) == x0 + StringSize(m, s, height)
  {
    GlyphEnds(m, s, |s|, x0, y0, height, center, color);
    assert s[..|s|] == s;
  }

  lemma GlyphsAbut(m: FontMetrics, s: seq<char>, i: int, x0: real, y0: real, height: real, center: Vec3, color: Vec3)
    requires LayoutReady(m) && IsAscii(s) && 0 < i < |s|
    ensures GlyphLeft(GlyphAt(m, s, i, x0, y0, height, center, color))
            == GlyphRight(GlyphAt(m, s, i - 1, x0, y0, height, center, color))
  {
    GlyphEnds(m, s, i, x0, y0, height, center, color);
    GlyphStarts(m, s, i, x0, y0, height, center, color);
  }

  /** Glyph i starts at x0 plus the scaled width of the characters before it. */
  lemma GlyphStarts(m: FontMetrics, s: seq<char>, i: int, x0: real, y0: real, height: real, center: Vec3, color: Vec3)
    requires LayoutReady(m) && IsAscii(s) && 0 <= i < |s|
    ensures IsAscii(s[..i])
    ensures GlyphLeft(GlyphAt(m, s, i, x0, y0, height, center, color))
            == x0 + WidthSum(m, s[..i]) as real * ScaleFor(m, height)
  {
    assert IsAscii(s[..i]);
  }

  lemma Distribute(a: real, b: real, k: real)
    ensures (a + b) * k == a * k + b * k
  {
  }

  /** Glyph i-1 ends at x0 plus the scaled width of the first i characters. */
  lemma GlyphEnds(m: FontMetrics, s: seq<char>, i: int, x0: real, y0: real, height: real, center: Vec3, color: Vec3)
    requires LayoutReady(m) && IsAscii(s) && 0 < i <= |s|
    ensures IsAscii(s[..i])
    ensures GlyphRight(GlyphAt(m, s, i - 1, x0, y0, height, center, color))
            == x0 + WidthSum(m, s[..i]) as real * ScaleFor(m, height)
  {
    var k := ScaleFor(m, height);
    var pre := s[..i - 1];
    var c := s[i - 1];
    assert IsAscii(pre);
    WidthSumAppend(m, pre, c);
    assert pre + [c] == s[..i];
    var w := WidthSum(m, pre);
    var cw := m.charWidth[c as int];
    var q := GlyphAt(m, s, i - 1, x0, y0, height, center, color);
    assert GlyphRight(q) == x0 + w as real * k + cw as real * k;
    Distribute(w as real, cw as real, k);
  }

  /**
   * The marker quad of a 3D label: a square of half-size pointSize around
   * the label's anchor, textured with the whole point image.
   */
  function PointQuad(pointSize: real, center: Vec3, color: Vec3): (q: BillboardQuad)
    ensures Carries(q, center, color)
  {
    Quad(Vec3(-pointSize, -pointSize, 0.0), Vec3(pointSize, -pointSize, 0.0),
         Vec3(pointSize, pointSize, 0.0), Vec3(-pointSize, pointSize, 0.0),
         Vec2(0.0, 0.0), Vec2(1.0, 0.0), Vec2(1.0, 1.0), Vec2(0.0, 1.0),
         center, color)
  }
}
