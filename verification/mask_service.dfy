/**
 * The mask service: turns one polygon into a width-by-height buffer of 0/1 values, and turns such a
 * buffer back into an RGBA image for display.
 *
 * Filling the polygon path is done by the browser's 2D canvas, which is not part of this model: a
 * `Context2D` carries it as a `FillOracle`, a total function from the vertex list and the canvas size
 * to the RGBA bytes that `getImageData` reads back afterwards. What the service itself computes from
 * those bytes, and from a mask, is modelled exactly.
 */
module MaskService {
  import opened Wrappers
  import opened Geometry

  /** An unsigned 8-bit value, the element type of `Uint8Array` and `Uint8ClampedArray`. */
  newtype byte = x: int | 0 <= x < 256

  /**
   * What the canvas yields after `beginPath`, `moveTo`/`lineTo` along the vertices, `closePath` and
   * `fill` on a fresh canvas of the given width and height: its RGBA pixel bytes, row-major, four per
   * pixel, so always `4 * width * height` of them.
   */
  type FillOracle = f: (seq<Vertex>, nat, nat) -> seq<byte>
    | forall vs: seq<Vertex>, w: nat, h: nat :: |f(vs, w, h)| == 4 * w * h
    witness (vs: seq<Vertex>, w: nat, h: nat) => seq(4 * w * h, _ => 0 as byte)

  /** A 2D rendering context, as `getContext('2d')` returns it when the browser provides one. */
  datatype Context2D = Context2D(fill: FillOracle)

  /** The exceptions the service raises. */
  datatype MaskError =
    | ContextUnavailable  // `getContext('2d')` returned null
    | EmptyVertexList     // `vertices[0].x` read on an empty list
    | ZeroSizeCanvas      // `getImageData` or `createImageData` with a zero width or height

  /** The alpha byte of pixel `i` of an RGBA buffer. */
  function Alpha(rgba: seq<byte>, i: nat): byte
    requires 4 * i + 3 < |rgba|
  {
    rgba[4 * i + 3]
  }

  /** The first `n` pixels of an RGBA buffer as a mask: 1 where the pixel is not fully transparent. */
  function AlphaMask(rgba: seq<byte>, n: nat): seq<byte>
    requires 4 * n <= |rgba|
  {
    seq(n, i requires 0 <= i < n => if Alpha(rgba, i) > 0 then 1 else 0)
  }

  /** The mask the service derives from `vertices` on a `width` by `height` canvas. */
  function MaskOf(ctx: Context2D, vertices: seq<Vertex>, width: nat, height: nat): seq<byte> {
    AlphaMask(ctx.fill(vertices, width, height), width * height)
  }

  /** Pixel (x, y) of a row-major grid `width` pixels wide. */
  function PixelIndex(width: nat, x: nat, y: nat): nat {
    y * width + x
  }

  /**
   * The mask is row-major over the canvas: for every (x, y) on the canvas, mask entry
   * `y * width + x` exists and is 1 exactly when canvas pixel (x, y) has a non-zero alpha.
   */
  lemma MaskIsRowMajor(ctx: Context2D, vertices: seq<Vertex>, width: nat, height: nat, x: nat, y: nat)
    requires x < width && y < height
    ensures PixelIndex(width, x, y) < |MaskOf(ctx, vertices, width, height)|
    ensures var rgba := ctx.fill(vertices, width, height);
            MaskOf(ctx, vertices, width, height)[PixelIndex(width, x, y)] == 1 <==>
            rgba[4 * PixelIndex(width, x, y) + 3] > 0
  {
    assert y * width + x < (y + 1) * width <= height * width by {
      assert (y + 1) * width == y * width + width;
      assert (y + 1) * width <= height * width by {
        MultiplyMonotone(y + 1, height, width);
      }
    }
  }

  /** Multiplying by the same natural keeps the order of two naturals. */
  lemma MultiplyMonotone(a: nat, b: nat, c: nat)
    requires a <= b
    ensures a * c <= b * c
  {
  }

  /** The value a `Uint8ClampedArray` stores when `v` is assigned to one of its elements. */
  function Clamp(v: int): byte {
    if v < 0 then 0 else if v > 255 then 255 else v as byte
  }

  /**
   * Byte `c` (0 red, 1 green, 2 blue, 3 alpha) of pixel `i` in the image that displays `mask`:
   * grey level `mask[i] * 255` (clamped) and full opacity for the pixels the mask covers; the
   * transparent black of a new image elsewhere.
   */
  function Channel(mask: seq<byte>, i: nat, c: nat): byte {
    if i >= |mask| then 0
    else if c == 3 then 255
    else Clamp(mask[i] as int * 255)
  }

  /** The RGBA image of `n` pixels that displays `mask`. */
  function Encoded(mask: seq<byte>, n: nat): seq<byte> {
    seq(4 * n, k requires 0 <= k < 4 * n => Channel(mask, k / 4, k % 4))
  }

  /**
   * Round trip: displaying a 0/1 mask of `n` pixels and reading each pixel's red byte back divided
   * by 255 gives the mask again, and every pixel of the image is fully opaque.
   */
  lemma RedChannelRoundTrip(mask: seq<byte>, n: nat)
    requires |mask| == n
    requires forall i :: 0 <= i < n ==> mask[i] == 0 || mask[i] == 1
    ensures |Encoded(mask, n)| == 4 * n
    ensures forall i :: 0 <= i < n ==> Encoded(mask, n)[4 * i] as int / 255 == mask[i] as int
    ensures forall i :: 0 <= i < n ==> Encoded(mask, n)[4 * i + 3] == 255
  {
    var image := Encoded(mask, n);
    forall i | 0 <= i < n
      ensures image[4 * i] as int / 255 == mask[i] as int && image[4 * i + 3] == 255
    {
      assert (4 * i) / 4 == i && (4 * i) % 4 == 0;
      assert (4 * i + 3) / 4 == i && (4 * i + 3) % 4 == 3;
    }
  }

  /** The grey levels are clamped: every colour byte of a displayed mask is 0 or 255. */
  lemma EncodedIsBlackOrWhite(mask: seq<byte>, n: nat, k: nat)
    requires k < 4 * n
    ensures Encoded(mask, n)[k] == 0 || Encoded(mask, n)[k] == 255
  {
    var i := k / 4;
    if i < |mask| && k % 4 != 3 {
      assert mask[i] == 0 || mask[i] as int * 255 >= 255;
    }
  }

  /**
   * `generateMaskData`: fills the polygon on a fresh canvas, reads its pixels back, then derives the
   * mask from their alpha channel in a loop over the `width * height` mask entries.
   */
  method GenerateMaskData(vertices: seq<Vertex>, width: nat, height: nat, ctx: Option<Context2D>)
    returns (r: Result<array<byte>, MaskError>)
    ensures ctx.None? ==> r == Err(ContextUnavailable)
    ensures ctx.Some? && vertices == [] ==> r == Err(EmptyVertexList)
    ensures ctx.Some? && vertices != [] && width * height == 0 ==> r == Err(ZeroSizeCanvas)
    ensures ctx.Some? && vertices != [] && width * height != 0 ==> r.Ok?
    ensures r.Ok? ==>
              var rgba := ctx.value.fill(vertices, width, height);
              && r.value.Length == width * height
              && (forall i :: 0 <= i < r.value.Length ==>
                    (r.value[i] == 0 || r.value[i] == 1) && (r.value[i] == 1 <==> Alpha(rgba, i) > 0))
              && r.value[..] == MaskOf(ctx.value, vertices, width, height)
  {
    var maskData := new byte[width * height];
    if ctx.None? {
      return Err(ContextUnavailable);
    }
    if |vertices| == 0 {
      return Err(EmptyVertexList);
    }
    if width == 0 || height == 0 {
      // `getImageData(0, 0, width, height)` throws on an empty rectangle
      return Err(ZeroSizeCanvas);
    }
    var data := ctx.value.fill(vertices, width, height);
    for i := 0 to maskData.Length
      invariant forall j :: 0 <= j < i ==> maskData[j] == if Alpha(data, j) > 0 then 1 else 0
    {
      maskData[i] := if data[i * 4 + 3] > 0 then 1 else 0;
    }
    return Ok(maskData);
  }

  /**
   * `visualizeMask`: writes the displayed form of the mask into a new image of `width * height`
   * pixels, one pixel per mask entry; the result is the image the source puts on its canvas.
   * Entries beyond the image are dropped, as writes past the end of a typed array are.
   */
  method VisualizeMask(maskData: array<byte>, width: nat, height: nat, ctx: Option<Context2D>)
    returns (r: Result<array<byte>, MaskError>)
    ensures ctx.None? ==> r == Err(ContextUnavailable)
    ensures ctx.Some? && width * height == 0 ==> r == Err(ZeroSizeCanvas)
    ensures ctx.Some? && width * height != 0 ==> r.Ok? && r.value[..] == Encoded(maskData[..], width * height)
  {
    if ctx.None? {
      return Err(ContextUnavailable);
    }
    if width == 0 || height == 0 {
      // `createImageData(width, height)` throws on an empty image
      return Err(ZeroSizeCanvas);
    }
    var n := width * height;
    var image := new byte[4 * n](_ => 0);
    for i := 0 to maskData.Length
      invariant forall k :: 0 <= k < 4 * n ==>
                  image[k] == if k / 4 < i then Channel(maskData[..], k / 4, k % 4) else 0
    {
      if 4 * i + 3 < image.Length {
        var value := Clamp(maskData[i] as int * 255);
        image[4 * i] := value;
        image[4 * i + 1] := value;
        image[4 * i + 2] := value;
        image[4 * i + 3] := 255;
      }
    }
    return Ok(image);
  }

  /**
   * `processMask`: generates the mask of `vertices` on one canvas (`fillCtx` is its context),
   * displays it on another (`displayCtx`), and returns the generated buffer unchanged. Either step
   * may throw, and the second one only runs when the first succeeded.
   */
  method ProcessMask(vertices: seq<Vertex>, width: nat, height: nat,
                     fillCtx: Option<Context2D>, displayCtx: Option<Context2D>)
    returns (r: Result<array<byte>, MaskError>)
    ensures fillCtx.None? ==> r == Err(ContextUnavailable)
    ensures fillCtx.Some? && vertices == [] ==> r == Err(EmptyVertexList)
    ensures fillCtx.Some? && vertices != [] && width * height == 0 ==> r == Err(ZeroSizeCanvas)
    ensures fillCtx.Some? && vertices != [] && width * height != 0 && displayCtx.None? ==>
              r == Err(ContextUnavailable)
    ensures fillCtx.Some? && vertices != [] && width * height != 0 && displayCtx.Some? ==>
              r.Ok? && r.value[..] == MaskOf(fillCtx.value, vertices, width, height)
  {
    r := GenerateMaskData(vertices, width, height, fillCtx);
    if r.Ok? {
      var shown := VisualizeMask(r.value, width, height, displayCtx);
      if shown.Err? {
        r := Err(shown.error);
      }
    }
  }
}
