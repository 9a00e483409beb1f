/**
 * The CPU side of GLTexture::LoadTextureFromBitmap: the copied pixel buffer,
 * the red/blue exchange for BGR and BGRA bitmaps, and the OpenGL format the
 * buffer is uploaded with.
 */
module Pixels {
  import opened Options

  /** The bitmap pixel formats the loader tells apart; every other format is OtherFormat. */
  datatype PixelFormat = RGB | RGBA | BGR | BGRA | OtherFormat

  /** The two layouts handed to glTexImage2D. */
  datatype GlFormat = GL_RGB | GL_RGBA

  /**
   * A bitmap as the loader sees it once mapped: its size, the pixel format
   * and bytes per pixel the map reports, and the mapped bytes.
   */
  datatype Bitmap = Bitmap(width: nat, height: nat, format: PixelFormat, bytesPerPixel: nat, data: seq<bv8>)

  function PixelCount(b: Bitmap): nat
  {
    b.width * b.height
  }

  /** Where the byte offset o of a pixel ends up after the exchange: 0 and 2 trade places. */
  function Partner(o: nat): nat
  {
    if o == 0 then 2 else if o == 2 then 0 else o
  }

  lemma BlockInside(p: nat, n: nat, stride: nat)
    requires p < n
    ensures 0 <= p * stride && p * stride + stride <= n * stride
  {
    var k := n - p - 1;
    assert n * stride == p * stride + stride + k * stride;
  }

  /**
   * The buffer after the first n pixel-swap iterations of the exchange loop:
   * iteration p swaps the bytes at p*stride and p*stride+2.
   */
  function SwappedRB(s: seq<bv8>, n: nat, stride: nat): (r: seq<bv8>)
    requires stride >= 3 && n * stride <= |s|
    ensures |r| == |s|
    ensures forall j :: n * stride <= j < |s| ==> r[j] == s[j]
  {
    if n == 0 then s
    else
      BlockInside(n - 1, n, stride);
      var t := SwappedRB(s, n - 1, stride);
      var b := (n - 1) * stride;
      t[b := t[b + 2]][b + 2 := t[b]]
  }

  /** One more iteration of the exchange loop swaps the two bytes at offsets 0 and 2 of pixel n. */
  lemma SwappedRBStep(s: seq<bv8>, n: nat, stride: nat)
    requires stride >= 3 && n * stride + stride <= |s|
    ensures (n + 1) * stride <= |s|
    ensures var t := SwappedRB(s, n, stride);
            SwappedRB(s, n + 1, stride) == t[n * stride := t[n * stride + 2]][n * stride + 2 := t[n * stride]]
  {
    assert (n + 1) * stride == n * stride + stride;
  }

  /**
   * After n iterations every byte of the first n pixels holds the byte of its
   * partner offset in the original: red and blue are exchanged, green and
   * alpha stay.
   */
  lemma {:induction false} SwappedRBPixel(s: seq<bv8>, n: nat, stride: nat, p: nat, o: nat)
    requires stride >= 3 && n * stride <= |s|
    requires p < n && o < stride
    ensures p * stride + o < |s| && p * stride + Partner(o) < |s|
    ensures SwappedRB(s, n, stride)[p * stride + o] == s[p * stride + Partner(o)]
  {
    BlockInside(p, n, stride);
    if p == n - 1 {
      LastPixel(s, n, stride, o);
    } else {
      EarlierPixel(s, n, stride, p, o);
      SwappedRBPixel(s, n - 1, stride, p, o);
    }
  }

  /** Iteration n - 1 exchanges the partner offsets of pixel n - 1. */
  lemma LastPixel(s: seq<bv8>, n: nat, stride: nat, o: nat)
    requires stride >= 3 && n * stride <= |s| && 0 < n && o < stride
    ensures 0 <= (n - 1) * stride && (n - 1) * stride + stride <= |s|
    ensures SwappedRB(s, n, stride)[(n - 1) * stride + o] == s[(n - 1) * stride + Partner(o)]
  {
    BlockInside(n - 1, n, stride);
    var t := SwappedRB(s, n - 1, stride);
    SwapAt(t, (n - 1) * stride, o);
    assert t[(n - 1) * stride + Partner(o)] == s[(n - 1) * stride + Partner(o)];
  }

  /** Iteration n - 1 leaves the bytes of every earlier pixel alone. */
  lemma EarlierPixel(s: seq<bv8>, n: nat, stride: nat, p: nat, o: nat)
    requires stride >= 3 && n * stride <= |s| && p < n - 1 && o < stride
    ensures 0 <= p * stride && p * stride + stride <= (n - 1) * stride
    ensures SwappedRB(s, n, stride)[p * stride + o] == SwappedRB(s, n - 1, stride)[p * stride + o]
  {
    BlockInside(n - 1, n, stride);
    BlockInside(p, n - 1, stride);
    SwapAway(SwappedRB(s, n - 1, stride), (n - 1) * stride, p * stride + o);
  }

  /** Swapping the bytes at b and b + 2 moves each offset o of that pixel to its partner. */
  lemma SwapAt(t: seq<bv8>, b: int, o: nat)
    requires 0 <= b && b + 2 < |t| && b + o < |t|
    ensures b + Partner(o) < |t|
    ensures t[b := t[b + 2]][b + 2 := t[b]][b + o] == t[b + Partner(o)]
  {
  }

  /** Swapping the bytes at b and b + 2 leaves every other byte in place. */
  lemma SwapAway(t: seq<bv8>, b: int, i: int)
    requires 0 <= i < b && b + 2 < |t|
    ensures t[b := t[b + 2]][b + 2 := t[b]][i] == t[i]
  {
  }

  /** Every byte offset below n*stride lies in one of the first n pixels. */
  lemma Split(j: nat, n: nat, stride: nat) returns (p: nat, o: nat)
    requires (stride == 3 || stride == 4) && j < n * stride
    ensures p < n && o < stride && j == p * stride + o
  {
    if stride == 3 {
      p, o := j / 3, j % 3;
    } else {
      p, o := j / 4, j % 4;
    }
    if p >= n {
      MulMono(n, p, stride);
    }
  }

  lemma MulMono(a: nat, b: nat, c: nat)
    requires a <= b
    ensures a * c <= b * c
  {
    assert b * c == a * c + (b - a) * c;
  }

  lemma MulMonoRight(a: nat, b: nat, c: nat)
    requires b <= c
    ensures a * b <= a * c
  {
    assert a * c == a * b + a * (c - b);
  }

  lemma TwiceAt(s: seq<bv8>, n: nat, stride: nat, p: nat, o: nat)
    requires stride >= 3 && n * stride <= |s| && p < n && o < stride
    ensures p * stride + o < |s|
    ensures SwappedRB(SwappedRB(s, n, stride), n, stride)[p * stride + o] == s[p * stride + o]
  {
    var r := SwappedRB(s, n, stride);
    SwappedRBPixel(r, n, stride, p, o);
    SwappedRBPixel(s, n, stride, p, Partner(o));
    assert Partner(Partner(o)) == o;
  }

  /** Exchanging red and blue twice gives back the original buffer. */
  lemma SwappedRBInvolution(s: seq<bv8>, n: nat, stride: nat)
    requires (stride == 3 || stride == 4) && n * stride <= |s|
    ensures SwappedRB(SwappedRB(s, n, stride), n, stride) == s
  {
    var r := SwappedRB(s, n, stride);
    var r2 := SwappedRB(r, n, stride);
    forall j | 0 <= j < |s| ensures r2[j] == s[j] {
      if j < n * stride {
        var p, o := Split(j, n, stride);
        TwiceAt(s, n, stride, p, o);
      }
    }
  }

  /** The exchange loop, in place on the copied buffer. */
  method SwapRedBlue(buffer: array<bv8>, numpix: nat, stride: nat)
    requires stride >= 3 && numpix * stride <= buffer.Length
    modifies buffer
    ensures buffer[..] == SwappedRB(old(buffer[..]), numpix, stride)
  {
    for p := 0 to numpix
      invariant p * stride <= buffer.Length
      invariant buffer[..] == SwappedRB(old(buffer[..]), p, stride)
    {
      BlockInside(p, numpix, stride);
      SwappedRBStep(old(buffer[..]), p, stride);
      var b := p * stride;
      ghost var before := buffer[..];
      var r := buffer[b];
      buffer[b] := buffer[b + 2];
      buffer[b + 2] := r;
      assert buffer[..] == before[b := before[b + 2]][b + 2 := before[b]];
    }
  }

  /** How many bytes the exchange steps over per pixel, for the formats that need it. */
  function SwapStride(f: PixelFormat): nat
  {
    match f
    case BGR => 3
    case BGRA => 4
    case _ => 0
  }

  /** The OpenGL layout a known format is uploaded with; None for any other format. */
  function UploadFormat(f: PixelFormat): (g: Option<GlFormat>)
    ensures g == None <==> f == OtherFormat
    ensures g == Some(GL_RGB) <==> f == RGB || f == BGR
    ensures g == Some(GL_RGBA) <==> f == RGBA || f == BGRA
  {
    match f
    case RGB => Some(GL_RGB)
    case BGR => Some(GL_RGB)
    case RGBA => Some(GL_RGBA)
    case BGRA => Some(GL_RGBA)
    case OtherFormat => None
  }

  /**
   * What the loader requires of the mapped bitmap so that its copy and its
   * exchange loop stay inside the mapped bytes.
   */
  predicate WellMapped(b: Bitmap)
  {
    && PixelCount(b) * b.bytesPerPixel <= |b.data|
    && (b.format == BGR ==> b.bytesPerPixel >= 3)
    && (b.format == BGRA ==> b.bytesPerPixel >= 4)
  }

  /** The buffer handed to glTexImage2D for a bitmap of a known format. */
  function UploadBuffer(b: Bitmap): (r: seq<bv8>)
    requires WellMapped(b)
    ensures |r| == PixelCount(b) * b.bytesPerPixel
  {
    var copy := b.data[..PixelCount(b) * b.bytesPerPixel];
    if b.format == BGR || b.format == BGRA then
      MulMonoRight(PixelCount(b), SwapStride(b.format), b.bytesPerPixel);
      SwappedRB(copy, PixelCount(b), SwapStride(b.format))
    else copy
  }

  /** RGB and RGBA bitmaps are uploaded byte for byte. */
  lemma UploadKeepsRgb(b: Bitmap)
    requires WellMapped(b) && (b.format == RGB || b.format == RGBA)
    ensures UploadBuffer(b) == b.data[..PixelCount(b) * b.bytesPerPixel]
  {
  }

  /**
   * A BGR or BGRA bitmap is uploaded with red and blue exchanged in every
   * pixel and all other bytes as mapped.
   */
  lemma UploadSwapsBgr(b: Bitmap, p: nat, o: nat)
    requires WellMapped(b) && (b.format == BGR || b.format == BGRA)
    requires p < PixelCount(b) && o < SwapStride(b.format)
    ensures p * SwapStride(b.format) + o < PixelCount(b) * b.bytesPerPixel
    ensures p * SwapStride(b.format) + Partner(o) < PixelCount(b) * b.bytesPerPixel <= |b.data|
    ensures UploadBuffer(b)[p * SwapStride(b.format) + o] == b.data[p * SwapStride(b.format) + Partner(o)]
  {
    var n := PixelCount(b);
    var st := SwapStride(b.format);
    MulMonoRight(n, st, b.bytesPerPixel);
    BlockInside(p, n, st);
    var copy := b.data[..n * b.bytesPerPixel];
    assert UploadBuffer(b) == SwappedRB(copy, n, st);
    SwappedRBPixel(copy, n, st, p, o);
    assert copy[p * st + Partner(o)] == b.data[p * st + Partner(o)];
  }
}
