/** How the video encoder brings a core frame to its fixed output size. */
module VideoEncoder {
  import opened Base
  import opened Arithmetic
  import opened ImageKernels

  /** 640 x 480 RGB24: what the shared output region holds of a frame. */
  const MAX_PIXELS: nat := 640 * 480 * 3

  function ScaleFactor(scaleHeight: nat, coreHeight: nat, maxScale: nat): nat {
    if scaleHeight > 0 && coreHeight > 0
    then Min(Max(Div(scaleHeight, coreHeight), 1), Max(maxScale, 1))
    else 1
  }

  /** The core's height times `k` fits the configured height. */
  predicate FactorFits(k: nat, coreHeight: nat, scaleHeight: nat) {
    scaleHeight > 0 && coreHeight > 0 && coreHeight * k <= scaleHeight
  }

  /** Above 1, a factor within the maximum is used up to exactly when it fits. */
  lemma FactorIsLargest(scaleHeight: nat, coreHeight: nat, maxScale: nat, k: nat)
    requires 1 < k <= Max(maxScale, 1)
    ensures k <= ScaleFactor(scaleHeight, coreHeight, maxScale) <==> FactorFits(k, coreHeight, scaleHeight)
  {
    if scaleHeight > 0 && coreHeight > 0 {
      if coreHeight * k <= scaleHeight {
        DivAtLeast(scaleHeight, coreHeight, k);
      } else {
        DivLess(scaleHeight, coreHeight, k);
      }
    }
  }

  /** Zero-padded or cut to `n` bytes. */
  function Fit(rgb: Bytes, n: nat): (r: Bytes)
    ensures |r| == n
  {
    seq(n, i requires 0 <= i < n => At(rgb, i))
  }

  /** The unscaled path: zero-pads a short frame, cuts a long one. */
  method FitTo(rgb: Bytes, expected: nat) returns (data: Bytes)
    ensures data == Fit(rgb, expected)
  {
    if |rgb| < expected {
      var padded := new Byte[expected](_ => 0);
      var i := 0;
      while i < |rgb|
        invariant 0 <= i <= |rgb|
        invariant padded[..] == rgb[..i] + Zeros(expected - i)
      {
        padded[i] := rgb[i];
        i := i + 1;
      }
      data := padded[..];
    } else {
      data := rgb[..expected];
    }
  }

  class GstVideoEncoder {
    const coreWidth: nat
    const coreHeight: nat
    const outputWidth: nat
    const outputHeight: nat
    const scaleFactor: nat
    var framesPushed: nat

    constructor (coreWidth: nat, coreHeight: nat, scaleHeight: nat, maxScale: nat)
      ensures Valid() && framesPushed == 0
      ensures this.coreWidth == coreWidth && this.coreHeight == coreHeight
      ensures scaleFactor == ScaleFactor(scaleHeight, coreHeight, maxScale)
      ensures 1 <= scaleFactor <= Max(maxScale, 1)
      ensures forall k: nat :: 1 < k <= Max(maxScale, 1) ==>
        (k <= scaleFactor <==> FactorFits(k, coreHeight, scaleHeight))
    {
      this.coreWidth, this.coreHeight := coreWidth, coreHeight;
      var factor := 1;
      if scaleHeight > 0 && coreHeight > 0 {
        factor := Min(Max(Div(scaleHeight, coreHeight), 1), Max(maxScale, 1));
      }
      scaleFactor := factor;
      outputWidth, outputHeight := coreWidth * factor, coreHeight * factor;
      framesPushed := 0;
      new;
      forall k: nat | 1 < k <= Max(maxScale, 1)
        ensures k <= scaleFactor <==> FactorFits(k, coreHeight, scaleHeight)
      {
        FactorIsLargest(scaleHeight, coreHeight, maxScale, k);
      }
    }

    ghost predicate Valid() {
      scaleFactor >= 1 && outputWidth == scaleFactor * coreWidth && outputHeight == scaleFactor * coreHeight
    }

    /** The frame can be processed without reading past its end. */
    ghost predicate Readable(n: nat, w: nat, h: nat) {
      && (w != coreWidth || h != coreHeight ==> ResizeReadable(n, w, h, coreWidth, coreHeight))
      && (scaleFactor > 1 ==> coreWidth > 0 && coreHeight > 0)
      && (scaleFactor > 1 && w == coreWidth && h == coreHeight ==>
            ScaleReadable(n, coreWidth, coreHeight, outputWidth, outputHeight))
    }

    function AtCoreSize(rgb: Bytes, w: nat, h: nat): Bytes {
      if w != coreWidth || h != coreHeight then Resized(rgb, w, h, coreWidth, coreHeight) else rgb
    }

    function Prepared(rgb: Bytes, w: nat, h: nat): Bytes
      requires scaleFactor > 1 ==> coreWidth > 0 && coreHeight > 0
    {
      if scaleFactor > 1
      then Scaled(AtCoreSize(rgb, w, h), coreWidth, coreHeight, outputWidth, outputHeight)
      else Fit(AtCoreSize(rgb, w, h), Size(coreWidth, coreHeight))
    }

    /** Prepares a frame and hands it to the pipeline, which may refuse it. */
    method Push(rgb: Bytes, w: nat, h: nat, accepted: bool) returns (data: Bytes)
      requires Valid() && Readable(|rgb|, w, h)
      modifies this`framesPushed
      ensures data == Prepared(rgb, w, h)
      ensures framesPushed == old(framesPushed) + (if accepted then 1 else 0)
    {
      if w != coreWidth || h != coreHeight {
        var resized := NearestNeighborResize(rgb, w, h, coreWidth, coreHeight);
        if scaleFactor > 1 {
          SelfReadable(coreWidth, coreHeight, outputWidth, outputHeight);
          var scaled := NearestNeighborScale(resized[..], coreWidth, coreHeight, outputWidth, outputHeight);
          data := scaled[..];
        } else {
          data := resized[..];
          assert data == Fit(data, Size(coreWidth, coreHeight));
        }
      } else if scaleFactor > 1 {
        var scaled := NearestNeighborScale(rgb, coreWidth, coreHeight, outputWidth, outputHeight);
        data := scaled[..];
      } else {
        data := FitTo(rgb, Size(coreWidth, coreHeight));
      }
      if accepted {
        framesPushed := framesPushed + 1;
      }
    }

    /** Every output frame has the fixed output size, and every output pixel is the
        nearest source pixel of the incoming frame, whatever its dimensions. */
    lemma PreparedSamplesTheFrame(rgb: Bytes, w: nat, h: nat, x: nat, y: nat, c: nat)
      requires Valid() && coreWidth > 0 && coreHeight > 0
      requires x < outputWidth && y < outputHeight && c < 3
      ensures |Prepared(rgb, w, h)| == Size(outputWidth, outputHeight)
      ensures Pixel(Prepared(rgb, w, h), outputWidth, x, y, c)
              == Pixel(rgb, w, Nearest(Div(x, scaleFactor), w, coreWidth),
                       Nearest(Div(y, scaleFactor), h, coreHeight), c)
    {
      var base := AtCoreSize(rgb, w, h);
      var cx, cy := Div(x, scaleFactor), Div(y, scaleFactor);
      InsideCore(x, scaleFactor, coreWidth);
      InsideCore(y, scaleFactor, coreHeight);
      IdxBound(coreWidth, coreHeight, cx, cy, c);
      assert Pixel(Prepared(rgb, w, h), outputWidth, x, y, c) == Pixel(base, coreWidth, cx, cy, c) by {
        if scaleFactor > 1 {
          ScaleSamplesLikeResize(base, coreWidth, coreHeight, scaleFactor, scaleFactor,
                                 outputWidth, outputHeight, x, y, c);
        } else {
          DivUnique(x, 1, x, 0);
          DivUnique(y, 1, y, 0);
        }
      }
      if w != coreWidth || h != coreHeight {
        ResizedPixel(rgb, w, h, coreWidth, coreHeight, cx, cy, c);
      } else {
        DivExact(cx, w);
        DivExact(cy, h);
      }
    }

    /** A frame read from shared memory was cut to MAX_PIXELS. Preparing it stays in bounds
        exactly when nothing needed was cut off: at the core's size, if it is not scaled or
        was not cut; at any other size, if the last pixel the resize samples is still there. */
    lemma CutFrameReadableIff(w: nat, h: nat)
      requires Valid() && coreWidth > 0 && coreHeight > 0
      ensures Readable(Min(Size(w, h), MAX_PIXELS), w, h) <==>
        if w == coreWidth && h == coreHeight then scaleFactor == 1 || Size(w, h) <= MAX_PIXELS
        else w > 0 && h > 0 && LastRead(w, h, coreWidth, coreHeight) < MAX_PIXELS
    {
      if w == coreWidth && h == coreHeight {
        DivExact(scaleFactor, coreWidth);
        DivExact(scaleFactor, coreHeight);
      } else if w > 0 && h > 0 {
        LastInside(w, coreWidth);
        LastInside(h, coreHeight);
        IdxBound(w, h, Nearest(coreWidth - 1, w, coreWidth), Nearest(coreHeight - 1, h, coreHeight), 2);
      } else {
        EmptySize(w, h);
      }
    }

    /** A core that starts at 320 x 240 and switches to 800 x 600, with no scaling: the frame
        was cut to the shared buffer, and the resize reads past it. */
    lemma CutFrameCanBeUnreadable()
      requires Valid() && coreWidth == 320 && coreHeight == 240 && scaleFactor == 1
      ensures !Readable(Min(Size(800, 600), MAX_PIXELS), 800, 600)
    {
      DivUnique(319 * 800, 320, 797, 160);
      DivUnique(239 * 600, 240, 597, 120);
      assert LastRead(800, 600, 320, 240) == (597 * 800 + 797) * 3 + 2;
    }
  }

  lemma EmptySize(w: nat, h: nat)
    ensures w == 0 || h == 0 ==> Size(w, h) == 0
  {
  }

  /** Sampling the last position stays inside the source. */
  lemma LastInside(from: nat, to: nat)
    requires from > 0 && to > 0
    ensures Nearest(to - 1, from, to) < from
  {
    assert (to - 1) * from < to * from;
    DivLess((to - 1) * from, to, from);
  }

  lemma SelfReadable(w: nat, h: nat, dw: nat, dh: nat)
    requires w > 0 && h > 0
    ensures ScaleReadable(Size(w, h), w, h, dw, dh)
  {
  }

  lemma InsideCore(x: nat, k: nat, w: nat)
    requires k > 0 && x < k * w
    ensures Div(x, k) < w
  {
    DivLess(x, k, w);
  }
}
