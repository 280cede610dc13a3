/**
 * The CPU frame builder of the command-line tool (crates/cli/src/video.rs): RGB frames as
 * flat byte buffers, three bytes per pixel in row-major order, the frame list a
 * `FrameGenerator` collects, and the two frame painters: a single white pixel on black, and
 * the particles of the solver state as white pixels on a dark blue background.
 */
module Video {
  import opened Numeric
  import opened Arena
  import SolverState

  /** A `u8`. */
  newtype Byte = b: int | 0 <= b < 256

  /** The collected frames and the frame size. */
  class FrameGenerator {
    var frames: seq<seq<Byte>>
    const width: nat
    const height: nat

    /** `FrameGenerator::new`: no frames yet; it cannot fail. */
    constructor (width: nat, height: nat)
      ensures this.width == width && this.height == height && frames == []
    {
      this.width := width;
      this.height := height;
      frames := [];
    }

    /** `add_frame`: the frame is appended after the earlier ones, which keep their order;
        it cannot fail. */
    method AddFrame(pixels: seq<Byte>)
      modifies this
      ensures frames == old(frames) + [pixels]
      ensures |frames| == |old(frames)| + 1 && frames[|frames| - 1] == pixels
      ensures forall k :: 0 <= k < |old(frames)| ==> frames[k] == old(frames)[k]
    {
      frames := frames + [pixels];
    }
  }

  /** The byte index of the red byte of pixel `(x, y)` in a frame `width` pixels wide. */
  function PixelStart(x: nat, y: nat, width: nat): nat
  {
    (y * width + x) * 3
  }

  /** A pixel inside the frame has its three bytes inside the buffer of `width * height * 3`
      bytes. */
  lemma PixelInFrame(x: nat, y: nat, width: nat, height: nat)
    requires x < width && y < height
    ensures PixelStart(x, y, width) + 2 < width * height * 3
  {
    IntMulMono(y + 1, height, width);
    assert (y + 1) * width == y * width + width;
  }

  /** Byte `k` belongs to the pixel numbered `p` exactly when it is one of the three bytes
      from `3 * p`. */
  lemma ByteOfPixel(k: nat, p: nat)
    ensures k / 3 == p <==> p * 3 <= k < p * 3 + 3
  {
    if p * 3 <= k < p * 3 + 3 {
      DivModUnique(k, 3, p, k - p * 3);
    }
  }

  /** Whether byte `k` of a `create_pixel_frame` buffer belongs to the white pixel. */
  predicate InWhitePixel(k: nat, width: nat, height: nat, pixelX: nat, pixelY: nat)
  {
    pixelX < width && pixelY < height && k / 3 == pixelY * width + pixelX
  }

  /** `create_pixel_frame`: `width * height * 3` bytes, all 0 except that, when
      `(pixelX, pixelY)` is inside the frame, the three bytes of that pixel are 255. A pixel
      outside the frame gives an all-black frame. */
  method CreatePixelFrame(width: nat, height: nat, pixelX: nat, pixelY: nat) returns (pixels: seq<Byte>)
    ensures |pixels| == width * height * 3
    ensures forall k :: 0 <= k < |pixels| ==>
              pixels[k] == if InWhitePixel(k, width, height, pixelX, pixelY) then 255 else 0
    ensures forall k :: 0 <= k < |pixels| ==>
              (pixels[k] == 255 <==> pixelX < width && pixelY < height &&
                                     PixelStart(pixelX, pixelY, width) <= k < PixelStart(pixelX, pixelY, width) + 3)
    ensures !(pixelX < width && pixelY < height) ==> forall k :: 0 <= k < |pixels| ==> pixels[k] == 0
  {
    var a := new Byte[width * height * 3](_ => 0);
    for c := 0 to width * height
      invariant forall k :: 0 <= k < a.Length ==> a[k] == 0
    {
      a[c * 3] := 0;
      a[c * 3 + 1] := 0;
      a[c * 3 + 2] := 0;
    }
    if pixelX < width && pixelY < height {
      var idx := PixelStart(pixelX, pixelY, width);
      PixelInFrame(pixelX, pixelY, width, height);
      a[idx] := 255;
      a[idx + 1] := 255;
      a[idx + 2] := 255;
    }
    pixels := a[..];
    WhitePixelBytes(pixels, width, height, pixelX, pixelY);
  }

  /** A buffer whose bytes are 255 exactly on the three bytes of an in-frame pixel, and 0
      elsewhere, is white on exactly the bytes of that pixel number. */
  lemma WhitePixelBytes(pixels: seq<Byte>, width: nat, height: nat, pixelX: nat, pixelY: nat)
    requires forall k :: 0 <= k < |pixels| ==>
               pixels[k] == if pixelX < width && pixelY < height &&
                               PixelStart(pixelX, pixelY, width) <= k < PixelStart(pixelX, pixelY, width) + 3
                            then 255 else 0
    ensures forall k :: 0 <= k < |pixels| ==>
              pixels[k] == if InWhitePixel(k, width, height, pixelX, pixelY) then 255 else 0
  {
    forall k | 0 <= k < |pixels|
      ensures pixels[k] == if InWhitePixel(k, width, height, pixelX, pixelY) then 255 else 0
    {
      ByteOfPixel(k, pixelY * width + pixelX);
    }
  }

  /** The background of a rendered frame, byte `c` of every pixel: dark blue (20, 50, 80). */
  function Background(c: nat): Byte
  {
    if c == 0 then 20 else if c == 1 then 50 else 80
  }

  /** `((pos + 1.6) / 3.2 * size as f32) as usize`: the position mapped from `[-1.6, 1.6]`
      onto `[0, size]`. The cast truncates toward zero and turns negative values into 0. */
  function ScreenCoord(pos: real, size: nat): nat
  {
    ToUsize(((pos + 1.6) / 3.2 * size as real).Floor)
  }

  /** The pixel number `y * width + x` that particle `(px, py)` paints, or -1 when its screen
      coordinates fall outside the frame. */
  function Hit(px: real, py: real, width: nat, height: nat): int
  {
    var x := ScreenCoord(px, width);
    var y := ScreenCoord(py, height);
    if x < width && y < height then y * width + x else -1
  }

  /** Whether one of the first `n` particles paints pixel `p`. */
  predicate PaintedBy(xs: seq<real>, ys: seq<real>, n: nat, width: nat, height: nat, p: nat)
    requires n <= |xs| && n <= |ys|
  {
    n > 0 && (Hit(xs[n - 1], ys[n - 1], width, height) == p || PaintedBy(xs, ys, n - 1, width, height, p))
  }

  /** A pixel is painted exactly when some particle among the first `n` hits it. */
  lemma {:induction false} PaintedBySomeParticle(xs: seq<real>, ys: seq<real>, n: nat, width: nat, height: nat, p: nat)
    requires n <= |xs| && n <= |ys|
    ensures PaintedBy(xs, ys, n, width, height, p) <==>
            exists i :: 0 <= i < n && Hit(xs[i], ys[i], width, height) == p
  {
    if n > 0 {
      PaintedBySomeParticle(xs, ys, n - 1, width, height, p);
      if Hit(xs[n - 1], ys[n - 1], width, height) == p {
        assert 0 <= n - 1 < n && Hit(xs[n - 1], ys[n - 1], width, height) == p;
      }
    }
  }

  /** Whether byte `k` of a rendered frame is white after the first `n` particles. */
  function RenderedByte(xs: seq<real>, ys: seq<real>, n: nat, width: nat, height: nat, k: nat): Byte
    requires n <= |xs| && n <= |ys|
  {
    if PaintedBy(xs, ys, n, width, height, k / 3) then 255 else Background(k % 3)
  }

  /** Paints the pixel particle `(px, py)` maps to white, when it is inside the frame. */
  method PaintParticle(a: array<Byte>, px: real, py: real, width: nat, height: nat)
    requires a.Length == width * height * 3
    modifies a
    ensures forall k :: 0 <= k < a.Length ==>
              a[k] == if Hit(px, py, width, height) == k / 3 then 255 else old(a[k])
  {
    var x := ScreenCoord(px, width);
    var y := ScreenCoord(py, height);
    if x < width && y < height {
      var idx := PixelStart(x, y, width);
      PixelInFrame(x, y, width, height);
      a[idx] := 255;
      a[idx + 1] := 255;
      a[idx + 2] := 255;
      forall k | 0 <= k < a.Length
        ensures Hit(px, py, width, height) == k / 3 <==> idx <= k < idx + 3
      {
        ByteOfPixel(k, y * width + x);
      }
    }
  }

  /** `render_particles`: `width * height * 3` bytes; a pixel is white (255, 255, 255) when
      some particle of the state maps to it, and the dark blue background otherwise. */
  method RenderParticles(state: SolverState.State, width: nat, height: nat) returns (pixels: seq<Byte>)
    requires state.Valid()
    ensures |pixels| == width * height * 3
    ensures forall k :: 0 <= k < |pixels| ==> pixels[k] == RenderedByte(state.x, state.y, N, width, height, k)
  {
    var a := new Byte[width * height * 3](_ => 0);
    for c := 0 to width * height
      invariant forall k :: 0 <= k < c * 3 ==> a[k] == Background(k % 3)
    {
      a[c * 3] := 20;
      a[c * 3 + 1] := 50;
      a[c * 3 + 2] := 80;
    }
    for i := 0 to N
      invariant forall k :: 0 <= k < a.Length ==> a[k] == RenderedByte(state.x, state.y, i, width, height, k)
    {
      PaintParticle(a, state.x[i], state.y[i], width, height);
    }
    pixels := a[..];
  }

  /** A frame pixel is either wholly white or wholly background: its three bytes agree on
      whether a particle hit it. */
  lemma PixelsAreWhole(xs: seq<real>, ys: seq<real>, n: nat, width: nat, height: nat, p: nat, c: nat)
    requires n <= |xs| && n <= |ys| && c < 3
    ensures RenderedByte(xs, ys, n, width, height, p * 3 + c) ==
            if PaintedBy(xs, ys, n, width, height, p) then 255 else Background(c)
  {
    DivModUnique(p * 3 + c, 3, p, c);
  }

  /** A particle whose screen coordinates fall outside the frame paints nothing: the frame
      is the same with or without it. */
  lemma OffscreenParticlePaintsNothing(xs: seq<real>, ys: seq<real>, n: nat, width: nat, height: nat, k: nat)
    requires n < |xs| && n < |ys|
    requires ScreenCoord(xs[n], width) >= width || ScreenCoord(ys[n], height) >= height
    ensures RenderedByte(xs, ys, n + 1, width, height, k) == RenderedByte(xs, ys, n, width, height, k)
  {
  }

  /** The cast maps every position of the solver's box `[-1.6, 1.6)` into the frame, so
      every particle strictly below the upper walls is drawn; a particle exactly on an upper
      wall, where the wall reflection leaves it, maps to `size` and is not drawn. */
  lemma BoxMapsIntoFrame(pos: real, size: nat)
    requires -1.6 <= pos <= 1.6 && size > 0
    ensures pos < 1.6 ==> ScreenCoord(pos, size) < size
    ensures pos == 1.6 ==> ScreenCoord(pos, size) == size
  {
    var f := (pos + 1.6) / 3.2;
    var v := f * size as real;
    assert 0.0 <= f <= 1.0;
    MulNonneg(f, size as real);
    if pos < 1.6 {
      MulStrictRight(f, 1.0, size as real);
      assert v.Floor as real <= v < size as real;
    }
  }

  /** Every particle strictly inside the solver's box is drawn as a white pixel. */
  lemma InsideParticleIsDrawn(xs: seq<real>, ys: seq<real>, n: nat, i: nat, width: nat, height: nat)
    requires i < n <= |xs| && n <= |ys| && width > 0 && height > 0
    requires -1.6 <= xs[i] < 1.6 && -1.6 <= ys[i] < 1.6
    ensures Hit(xs[i], ys[i], width, height) >= 0
    ensures PaintedBy(xs, ys, n, width, height, Hit(xs[i], ys[i], width, height))
  {
    BoxMapsIntoFrame(xs[i], width);
    BoxMapsIntoFrame(ys[i], height);
    PaintedBySomeParticle(xs, ys, n, width, height, Hit(xs[i], ys[i], width, height));
  }
}
