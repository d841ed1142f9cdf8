/**
 The RGB24 kernels between a core's framebuffer and the video encoder: integer
 scaling, general nearest-neighbour resizing and vertical line doubling.
 */
module ImageKernels {
  import opened Base
  import opened Arithmetic

  /** The number of bytes of a `w` by `h` image. */
  function Size(w: nat, h: nat): nat { w * h * 3 }

  /** Where channel `c` of pixel (x, y) sits in an image `w` pixels wide. */
  function Idx(w: nat, x: nat, y: nat, c: nat): nat { (y * w + x) * 3 + c }

  /** The byte at `i`, or 0 past the end. */
  function At(img: Bytes, i: nat): Byte { if i < |img| then img[i] else 0 }

  function Pixel(img: Bytes, w: nat, x: nat, y: nat, c: nat): Byte { At(img, Idx(w, x, y, c)) }

  function ColumnOf(w: nat, i: nat): nat requires w > 0 { i / 3 % w }
  function RowOf(w: nat, i: nat): nat requires w > 0 { Div(i / 3, w) }

  lemma IdxParts(w: nat, x: nat, y: nat, c: nat)
    requires x < w && c < 3
    ensures var i := Idx(w, x, y, c); ColumnOf(w, i) == x && RowOf(w, i) == y && i % 3 == c
  {
    DivUnique(Idx(w, x, y, c), 3, y * w + x, c);
    DivUnique(y * w + x, w, y, x);
  }

  lemma IdxBound(w: nat, h: nat, x: nat, y: nat, c: nat)
    requires x < w && y < h && c < 3
    ensures Idx(w, x, y, c) < Size(w, h)
  {
    MulLe(w, y + 1, h);
    assert (y + 1) * w == y * w + w;
  }

  lemma IdxSurjective(w: nat, h: nat, i: nat)
    requires w > 0 && i < Size(w, h)
    ensures ColumnOf(w, i) < w && RowOf(w, i) < h
    ensures i == Idx(w, ColumnOf(w, i), RowOf(w, i), i % 3)
  {
    DivLess(i / 3, w, h);
    DivMod(i / 3, w);
  }

  /** Two images with the same pixels are the same bytes. */
  lemma SamePixels(a: Bytes, b: Bytes, w: nat, h: nat)
    requires |a| == |b| == Size(w, h)
    requires forall x: nat, y: nat, c: nat ::
      x < w && y < h && c < 3 ==> Pixel(a, w, x, y, c) == Pixel(b, w, x, y, c)
    ensures a == b
  {
    forall i | 0 <= i < |a| ensures a[i] == b[i] {
      SizePositive(w, h);
      IdxSurjective(w, h, i);
      assert Pixel(a, w, ColumnOf(w, i), RowOf(w, i), i % 3) == Pixel(b, w, ColumnOf(w, i), RowOf(w, i), i % 3);
    }
  }

  lemma SizePositive(w: nat, h: nat)
    ensures Size(w, h) > 0 ==> w > 0 && h > 0
  {
  }

  // ── General resize ─────────────────────────────────────────────────

  /** The source coordinate that nearest-neighbour sampling maps `i` of `to` to. */
  function Nearest(i: nat, from: nat, to: nat): nat
    requires to > 0
  {
    Div(i * from, to)
  }

  /** It is the last source coordinate whose share of the destination starts at or before `i`. */
  lemma NearestIsFloor(i: nat, from: nat, to: nat)
    requires to > 0
    ensures Nearest(i, from, to) * to <= i * from < (Nearest(i, from, to) + 1) * to
  {
    DivMod(i * from, to);
    Step(Nearest(i, from, to), to);
  }

  function Resized(src: Bytes, sw: nat, sh: nat, dw: nat, dh: nat): (r: Bytes)
    ensures |r| == Size(dw, dh)
  {
    seq(Size(dw, dh), i requires 0 <= i < Size(dw, dh) =>
      SizePositive(dw, dh);
      Pixel(src, sw, Nearest(ColumnOf(dw, i), sw, dw), Nearest(RowOf(dw, i), sh, dh), i % 3))
  }

  lemma ResizedPixel(src: Bytes, sw: nat, sh: nat, dw: nat, dh: nat, x: nat, y: nat, c: nat)
    requires x < dw && y < dh && c < 3
    ensures Idx(dw, x, y, c) < Size(dw, dh)
    ensures Pixel(Resized(src, sw, sh, dw, dh), dw, x, y, c)
            == Pixel(src, sw, Nearest(x, sw, dw), Nearest(y, sh, dh), c)
  {
    IdxBound(dw, dh, x, y, c);
    IdxParts(dw, x, y, c);
  }

  /** The largest index the resize loop reads; a non-empty destination reads it. */
  function LastRead(sw: nat, sh: nat, dw: nat, dh: nat): nat
    requires dw > 0 && dh > 0
  {
    Idx(sw, Nearest(dw - 1, sw, dw), Nearest(dh - 1, sh, dh), 2)
  }

  /** Resizing `n` source bytes stays in bounds; otherwise the loop panics. */
  predicate ResizeReadable(n: nat, sw: nat, sh: nat, dw: nat, dh: nat) {
    dw > 0 && dh > 0 ==> LastRead(sw, sh, dw, dh) < n
  }

  lemma SampleMonotone(i: nat, j: nat, from: nat, to: nat)
    requires i <= j && to > 0
    ensures Nearest(i, from, to) <= Nearest(j, from, to)
  {
    MulLe(from, i, j);
    DivMonotone(i * from, j * from, to);
  }

  lemma ReadsUpToLast(sw: nat, sh: nat, dw: nat, dh: nat, x: nat, y: nat)
    requires x < dw && y < dh
    ensures Idx(sw, Nearest(x, sw, dw), Nearest(y, sh, dh), 2) <= LastRead(sw, sh, dw, dh)
  {
    SampleMonotone(x, dw - 1, sw, dw);
    SampleMonotone(y, dh - 1, sh, dh);
    MulLe(sw, Nearest(y, sh, dh), Nearest(dh - 1, sh, dh));
  }

  /** One iteration: where it reads, where it writes, and that this is the wanted byte. */
  lemma ResizeIteration(src: Bytes, sw: nat, sh: nat, dw: nat, dh: nat, x: nat, y: nat)
    requires ResizeReadable(|src|, sw, sh, dw, dh) && x < dw && y < dh
    ensures var si, di := Idx(sw, Nearest(x, sw, dw), Nearest(y, sh, dh), 0), Idx(dw, x, y, 0);
      && si + 2 < |src| && di + 2 < Size(dw, dh)
      && Resized(src, sw, sh, dw, dh)[di] == src[si]
      && Resized(src, sw, sh, dw, dh)[di + 1] == src[si + 1]
      && Resized(src, sw, sh, dw, dh)[di + 2] == src[si + 2]
  {
    ReadsUpToLast(sw, sh, dw, dh, x, y);
    ResizedPixel(src, sw, sh, dw, dh, x, y, 0);
    ResizedPixel(src, sw, sh, dw, dh, x, y, 1);
    ResizedPixel(src, sw, sh, dw, dh, x, y, 2);
  }

  lemma NextRow(w: nat, y: nat)
    ensures Idx(w, w, y, 0) == Idx(w, 0, y + 1, 0)
  {
  }

  lemma ThreeMore(a: Bytes, b: Bytes, n: nat)
    requires n + 3 <= |a| && n + 3 <= |b| && a[..n] == b[..n]
    requires a[n] == b[n] && a[n + 1] == b[n + 1] && a[n + 2] == b[n + 2]
    ensures a[..n + 3] == b[..n + 3]
  {
    assert a[..n + 3] == a[..n] + [a[n], a[n + 1], a[n + 2]];
    assert b[..n + 3] == b[..n] + [b[n], b[n + 1], b[n + 2]];
  }

  method NearestNeighborResize(src: Bytes, sw: nat, sh: nat, dw: nat, dh: nat) returns (dst: array<Byte>)
    requires ResizeReadable(|src|, sw, sh, dw, dh)
    ensures dst[..] == Resized(src, sw, sh, dw, dh)
  {
    ghost var want := Resized(src, sw, sh, dw, dh);
    dst := new Byte[Size(dw, dh)];
    var dstY := 0;
    while dstY < dh
      invariant dst.Length == |want| && 0 <= dstY <= dh
      invariant Idx(dw, 0, dstY, 0) <= |want| && dst[..Idx(dw, 0, dstY, 0)] == want[..Idx(dw, 0, dstY, 0)]
    {
      var srcY := Nearest(dstY, sh, dh);
      var dstX := 0;
      while dstX < dw
        invariant dst.Length == |want| && 0 <= dstX <= dw
        invariant Idx(dw, dstX, dstY, 0) <= |want|
        invariant dst[..Idx(dw, dstX, dstY, 0)] == want[..Idx(dw, dstX, dstY, 0)]
      {
        var srcX := Nearest(dstX, sw, dw);
        var si, di := Idx(sw, srcX, srcY, 0), Idx(dw, dstX, dstY, 0);
        ResizeIteration(src, sw, sh, dw, dh, dstX, dstY);
        dst[di] := src[si];
        dst[di + 1] := src[si + 1];
        dst[di + 2] := src[si + 2];
        ThreeMore(dst[..], want, di);
        dstX := dstX + 1;
      }
      NextRow(dw, dstY);
      dstY := dstY + 1;
    }
    assert Idx(dw, 0, dh, 0) == |want|;
  }

  // ── Integer scaling ────────────────────────────────────────────────

  /** Destination bytes beyond the whole multiples of the source stay black. */
  function Scaled(src: Bytes, sw: nat, sh: nat, dw: nat, dh: nat): (r: Bytes)
    requires sw > 0 && sh > 0
    ensures |r| == Size(dw, dh)
  {
    var fx, fy := Div(dw, sw), Div(dh, sh);
    seq(Size(dw, dh), i requires 0 <= i < Size(dw, dh) =>
      SizePositive(dw, dh);
      ScaledByte(src, sw, sh, fx, fy, ColumnOf(dw, i), RowOf(dw, i), i % 3))
  }

  function ScaledByte(src: Bytes, sw: nat, sh: nat, fx: nat, fy: nat, x: nat, y: nat, c: nat): Byte {
    if x < sw * fx && y < sh * fy && fx > 0 && fy > 0
    then Pixel(src, sw, Div(x, fx), Div(y, fy), c)
    else 0
  }

  lemma ScaledPixel(src: Bytes, sw: nat, sh: nat, dw: nat, dh: nat, x: nat, y: nat, c: nat)
    requires sw > 0 && sh > 0 && x < dw && y < dh && c < 3
    ensures Idx(dw, x, y, c) < Size(dw, dh)
    ensures Scaled(src, sw, sh, dw, dh)[Idx(dw, x, y, c)]
            == ScaledByte(src, sw, sh, Div(dw, sw), Div(dh, sh), x, y, c)
  {
    IdxBound(dw, dh, x, y, c);
    IdxParts(dw, x, y, c);
  }

  /** Scaling reads every source pixel, unless a factor is zero. */
  predicate ScaleReadable(n: nat, sw: nat, sh: nat, dw: nat, dh: nat)
    requires sw > 0 && sh > 0
  {
    Div(dw, sw) > 0 && Div(dh, sh) > 0 ==> Size(sw, sh) <= n
  }

  lemma Multiples(d: nat, s: nat, i: nat, k: nat)
    requires s > 0 && i < s && k < Div(d, s)
    ensures i * Div(d, s) + k < s * Div(d, s) <= d
    ensures Div(i * Div(d, s) + k, Div(d, s)) == i
  {
    var f := Div(d, s);
    MulLe(f, i + 1, s);
    DivMod(d, s);
    DivUnique(i * f + k, f, i, k);
  }

  /** A buffer filled up to `n` and black after it. */
  function Partly(want: Bytes, n: nat): Bytes
    requires n <= |want|
  {
    want[..n] + Zeros(|want| - n)
  }

  lemma PartlyThree(want: Bytes, n: nat)
    requires n + 3 <= |want|
    ensures Partly(want, n)[n := want[n]][n + 1 := want[n + 1]][n + 2 := want[n + 2]] == Partly(want, n + 3)
  {
  }

  /** Writing one pixel where the loop writes it fills the buffer by three more bytes. */
  lemma ScaleIteration(src: Bytes, sw: nat, sh: nat, dw: nat, dh: nat, srcX: nat, srcY: nat, dx: nat, dy: nat)
    requires sw > 0 && sh > 0 && ScaleReadable(|src|, sw, sh, dw, dh)
    requires srcX < sw && srcY < sh && dx < Div(dw, sw) && dy < Div(dh, sh)
    ensures var x, y := srcX * Div(dw, sw) + dx, srcY * Div(dh, sh) + dy;
      var si, di, want := Idx(sw, srcX, srcY, 0), Idx(dw, x, y, 0), Scaled(src, sw, sh, dw, dh);
      && si + 2 < |src| && di + 2 < Size(dw, dh)
      && Partly(want, di)[di := src[si]][di + 1 := src[si + 1]][di + 2 := src[si + 2]] == Partly(want, di + 3)
  {
    Multiples(dw, sw, srcX, dx);
    Multiples(dh, sh, srcY, dy);
    var x, y := srcX * Div(dw, sw) + dx, srcY * Div(dh, sh) + dy;
    IdxBound(sw, sh, srcX, srcY, 2);
    ScaledPixel(src, sw, sh, dw, dh, x, y, 0);
    ScaledPixel(src, sw, sh, dw, dh, x, y, 1);
    ScaledPixel(src, sw, sh, dw, dh, x, y, 2);
    PartlyThree(Scaled(src, sw, sh, dw, dh), Idx(dw, x, y, 0));
  }

  lemma PartlyGap(want: Bytes, n: nat, m: nat)
    requires n <= m <= |want| && forall i :: n <= i < m ==> want[i] == 0
    ensures Partly(want, n) == Partly(want, m)
  {
  }

  /** Nothing of the source lands right of the last whole multiple in a row. */
  lemma RowGap(src: Bytes, sw: nat, sh: nat, dw: nat, dh: nat, y: nat)
    requires sw > 0 && sh > 0 && y < dh
    ensures Idx(dw, sw * Div(dw, sw), y, 0) <= Idx(dw, 0, y + 1, 0) <= Size(dw, dh)
    ensures var want := Scaled(src, sw, sh, dw, dh);
      Partly(want, Idx(dw, sw * Div(dw, sw), y, 0)) == Partly(want, Idx(dw, 0, y + 1, 0))
  {
    var want, n, m := Scaled(src, sw, sh, dw, dh), Idx(dw, sw * Div(dw, sw), y, 0), Idx(dw, 0, y + 1, 0);
    DivMod(dw, sw);
    NextRow(dw, y);
    MulLe(dw, y + 1, dh);
    forall i | n <= i < m ensures want[i] == 0 {
      var x, c := i / 3 - y * dw, i % 3;
      assert i == Idx(dw, x, y, c);
      ScaledPixel(src, sw, sh, dw, dh, x, y, c);
    }
    PartlyGap(want, n, m);
  }

  lemma RowsFrom(w: nat, h: nat, y: nat, i: nat)
    requires w > 0 && Idx(w, 0, y, 0) <= i < Size(w, h)
    ensures y <= RowOf(w, i)
  {
    assert w * y == y * w;
    DivAtLeast(i / 3, w, y);
  }

  /** Nothing of the source lands below the last whole multiple. */
  lemma BottomGap(src: Bytes, sw: nat, sh: nat, dw: nat, dh: nat)
    requires sw > 0 && sh > 0
    ensures Idx(dw, 0, sh * Div(dh, sh), 0) <= Size(dw, dh)
    ensures var want := Scaled(src, sw, sh, dw, dh); Partly(want, Idx(dw, 0, sh * Div(dh, sh), 0)) == want
  {
    var want, rows := Scaled(src, sw, sh, dw, dh), sh * Div(dh, sh);
    var n := Idx(dw, 0, rows, 0);
    DivMod(dh, sh);
    MulLe(dw, rows, dh);
    forall i | n <= i < |want| ensures want[i] == 0 {
      SizePositive(dw, dh);
      IdxSurjective(dw, dh, i);
      RowsFrom(dw, dh, rows, i);
      ScaledPixel(src, sw, sh, dw, dh, ColumnOf(dw, i), RowOf(dw, i), i % 3);
    }
    PartlyGap(want, n, |want|);
  }

  lemma Step(a: nat, f: nat)
    ensures (a + 1) * f == a * f + f
  {
  }

  method NearestNeighborScale(src: Bytes, sw: nat, sh: nat, dw: nat, dh: nat) returns (dst: array<Byte>)
    requires sw > 0 && sh > 0 && ScaleReadable(|src|, sw, sh, dw, dh)
    ensures dst[..] == Scaled(src, sw, sh, dw, dh)
  {
    ghost var want := Scaled(src, sw, sh, dw, dh);
    var factorX, factorY := Div(dw, sw), Div(dh, sh);
    dst := new Byte[Size(dw, dh)](_ => 0);
    BottomGap(src, sw, sh, dw, dh);
    var srcY := 0;
    assert dst[..] == Partly(want, 0);
    while srcY < sh
      invariant 0 <= srcY <= sh && dst.Length == |want|
      invariant Idx(dw, 0, srcY * factorY, 0) <= |want|
      invariant dst[..] == Partly(want, Idx(dw, 0, srcY * factorY, 0))
    {
      var dy := 0;
      while dy < factorY
        invariant 0 <= dy <= factorY && dst.Length == |want|
        invariant Idx(dw, 0, srcY * factorY + dy, 0) <= |want|
        invariant dst[..] == Partly(want, Idx(dw, 0, srcY * factorY + dy, 0))
      {
        var dstY := srcY * factorY + dy;
        Multiples(dh, sh, srcY, dy);
        RowGap(src, sw, sh, dw, dh, dstY);
        ScaleRow(src, sw, sh, dw, dh, srcY, dy, dst);
        dy := dy + 1;
      }
      Step(srcY, factorY);
      srcY := srcY + 1;
    }
  }

  /** The loop over source columns: one destination row. */
  method ScaleRow(src: Bytes, sw: nat, sh: nat, dw: nat, dh: nat, srcY: nat, dy: nat, dst: array<Byte>)
    requires sw > 0 && sh > 0 && ScaleReadable(|src|, sw, sh, dw, dh)
    requires srcY < sh && dy < Div(dh, sh)
    requires dst.Length == Size(dw, dh)
    requires var y := srcY * Div(dh, sh) + dy;
      && Idx(dw, sw * Div(dw, sw), y, 0) <= Size(dw, dh)
      && Idx(dw, 0, y, 0) <= Size(dw, dh)
      && dst[..] == Partly(Scaled(src, sw, sh, dw, dh), Idx(dw, 0, y, 0))
    modifies dst
    ensures var y := srcY * Div(dh, sh) + dy;
      dst[..] == Partly(Scaled(src, sw, sh, dw, dh), Idx(dw, sw * Div(dw, sw), y, 0))
  {
    ghost var want := Scaled(src, sw, sh, dw, dh);
    var factorX := Div(dw, sw);
    var dstY := srcY * Div(dh, sh) + dy;
    var srcX := 0;
    while srcX < sw
      invariant 0 <= srcX <= sw
      invariant Idx(dw, srcX * factorX, dstY, 0) <= |want|
      invariant dst[..] == Partly(want, Idx(dw, srcX * factorX, dstY, 0))
    {
      RepeatPixel(src, sw, sh, dw, dh, srcX, srcY, dy, srcX * factorX, dstY, dst);
      Step(srcX, factorX);
      srcX := srcX + 1;
    }
  }

  /** The innermost loop: one source pixel, repeated along a destination row. */
  method RepeatPixel(src: Bytes, sw: nat, sh: nat, dw: nat, dh: nat, srcX: nat, srcY: nat, dy: nat,
                     x0: nat, dstY: nat, dst: array<Byte>)
    requires sw > 0 && sh > 0 && ScaleReadable(|src|, sw, sh, dw, dh)
    requires srcX < sw && srcY < sh && dy < Div(dh, sh)
    requires dst.Length == Size(dw, dh) && x0 == srcX * Div(dw, sw) && dstY == srcY * Div(dh, sh) + dy
    requires Idx(dw, x0, dstY, 0) <= Size(dw, dh)
    requires dst[..] == Partly(Scaled(src, sw, sh, dw, dh), Idx(dw, x0, dstY, 0))
    modifies dst
    ensures Idx(dw, x0 + Div(dw, sw), dstY, 0) <= Size(dw, dh)
    ensures dst[..] == Partly(Scaled(src, sw, sh, dw, dh), Idx(dw, x0 + Div(dw, sw), dstY, 0))
  {
    ghost var want := Scaled(src, sw, sh, dw, dh);
    var si := Idx(sw, srcX, srcY, 0);
    var dx := 0;
    while dx < Div(dw, sw)
      invariant 0 <= dx <= Div(dw, sw)
      invariant Idx(dw, x0 + dx, dstY, 0) <= |want|
      invariant dst[..] == Partly(want, Idx(dw, x0 + dx, dstY, 0))
    {
      var di := Idx(dw, x0 + dx, dstY, 0);
      ScaleIteration(src, sw, sh, dw, dh, srcX, srcY, dx, dy);
      WritePixel(src, si, dst, di, want);
      dx := dx + 1;
    }
  }

  method WritePixel(src: Bytes, si: nat, dst: array<Byte>, di: nat, ghost want: Bytes)
    requires si + 2 < |src| && di + 2 < dst.Length == |want| && dst[..] == Partly(want, di)
    requires Partly(want, di)[di := src[si]][di + 1 := src[si + 1]][di + 2 := src[si + 2]] == Partly(want, di + 3)
    modifies dst
    ensures dst[..] == Partly(want, di + 3)
  {
    dst[di] := src[si];
    dst[di + 1] := src[si + 1];
    dst[di + 2] := src[si + 2];
  }

  // ── Line doubling ──────────────────────────────────────────────────

  /** Source rows that are completely present in `n` bytes. */
  function WholeRows(n: nat, rowBytes: nat, h: nat): nat {
    if rowBytes == 0 then h else Min(h, Div(n, rowBytes))
  }

  function Doubled(src: Bytes, w: nat, rows: nat): (r: Bytes)
    ensures |r| == Size(w, 2 * rows)
  {
    seq(Size(w, 2 * rows), i requires 0 <= i < Size(w, 2 * rows) =>
      SizePositive(w, 2 * rows);
      Pixel(src, w, ColumnOf(w, i), Div(RowOf(w, i), 2), i % 3))
  }

  lemma DoubledPixel(src: Bytes, w: nat, rows: nat, x: nat, y: nat, c: nat)
    requires x < w && y < 2 * rows && c < 3
    ensures Idx(w, x, y, c) < Size(w, 2 * rows)
    ensures Doubled(src, w, rows)[Idx(w, x, y, c)] == Pixel(src, w, x, Div(y, 2), c)
  {
    IdxBound(w, 2 * rows, x, y, c);
    IdxParts(w, x, y, c);
  }

  /** A doubled image seen in rows of bytes: row y repeats source row y / 2. */
  lemma RowByte(src: Bytes, w: nat, rows: nat, y: nat, k: nat)
    requires y < 2 * rows && k < w * 3
    ensures y * (w * 3) + k < Size(w, 2 * rows)
    ensures Doubled(src, w, rows)[y * (w * 3) + k] == At(src, Div(y, 2) * (w * 3) + k)
  {
    var x, c := k / 3, k % 3;
    RowIdx(w, x, y, c);
    RowIdx(w, x, Div(y, 2), c);
    DoubledPixel(src, w, rows, x, y, c);
  }

  lemma RowIdx(w: nat, x: nat, y: nat, c: nat)
    ensures Idx(w, x, y, c) == y * (w * 3) + (x * 3 + c)
  {
    assert y * (w * 3) == (y * w) * 3;
  }

  lemma SizeInRows(w: nat, rows: nat)
    ensures Size(w, 2 * rows) == 2 * rows * (w * 3)
    ensures Size(w, 2 * (rows + 1)) == Size(w, 2 * rows) + w * 3 + w * 3
  {
  }

  lemma EarlierByte(src: Bytes, w: nat, row: nat, i: nat)
    requires i < Size(w, 2 * row) <= Size(w, 2 * (row + 1))
    ensures Doubled(src, w, row + 1)[i] == Doubled(src, w, row)[i]
  {
    SizePositive(w, 2 * row);
    SizeInRows(w, row);
    var b := w * 3;
    assert b * (2 * row) == 2 * row * b;
    DivMod(i, b);
    DivLess(i, b, 2 * row);
    RowByte(src, w, row, Div(i, b), i % b);
    RowByte(src, w, row + 1, Div(i, b), i % b);
  }

  /** The two new rows are copies of source row `row`. */
  lemma NewByte(src: Bytes, w: nat, row: nat, k: nat)
    requires k < w * 3 && Size(w, 2 * (row + 1)) == Size(w, 2 * row) + w * 3 + w * 3
    ensures var n, grown := Size(w, 2 * row), Doubled(src, w, row + 1);
      grown[n + k] == grown[n + w * 3 + k] == At(src, row * (w * 3) + k)
  {
    SizeInRows(w, row);
    Step(2 * row, w * 3);
    DivUnique(2 * row, 2, row, 0);
    DivUnique(2 * row + 1, 2, row, 1);
    RowByte(src, w, row + 1, 2 * row, k);
    RowByte(src, w, row + 1, 2 * row + 1, k);
  }

  lemma DoubledGrows(src: Bytes, w: nat, row: nat)
    requires row * (w * 3) + w * 3 <= |src|
    ensures var line := src[row * (w * 3)..row * (w * 3) + w * 3];
      Doubled(src, w, row + 1) == Doubled(src, w, row) + line + line
  {
    var start, b, n := row * (w * 3), w * 3, Size(w, 2 * row);
    var more, before, line := Doubled(src, w, row + 1), Doubled(src, w, row), src[start..start + b];
    SizeInRows(w, row);
    forall i | 0 <= i < |more| ensures more[i] == (before + line + line)[i] {
      if i < n {
        EarlierByte(src, w, row, i);
      } else {
        NewByte(src, w, row, if i < n + b then i - n else i - n - b);
      }
    }
  }

  method LineDoubleVertical(input: Bytes, w: nat, h: nat) returns (out: Bytes)
    ensures out == Doubled(input, w, WholeRows(|input|, w * 3, h))
  {
    var rowBytes := w * 3;
    out := [];
    var row := 0;
    while row < h
      invariant 0 <= row <= h && row * rowBytes <= |input|
      invariant out == Doubled(input, w, row)
    {
      var start := row * rowBytes;
      var end := start + rowBytes;
      Step(row, rowBytes);
      if end > |input| {
        break;
      }
      var line := input[start..end];
      DoubledGrows(input, w, row);
      out := out + line;
      out := out + line;
      row := row + 1;
    }
    if rowBytes > 0 {
      assert rowBytes * row == row * rowBytes;
      DivAtLeast(|input|, rowBytes, row);
      if row < h {
        assert rowBytes * (row + 1) == (row + 1) * rowBytes;
        DivLess(|input|, rowBytes, row + 1);
      }
    } else if row < h {
      assert false;
    }
  }

  // ── The kernels agree ──────────────────────────────────────────────

  /** Integer scaling by kx and ky is the general resize to (kx*w, ky*h). */
  lemma ScaleIsResize(src: Bytes, w: nat, h: nat, kx: nat, ky: nat)
    requires w > 0 && h > 0 && kx > 0 && ky > 0
    ensures Scaled(src, w, h, kx * w, ky * h) == Resized(src, w, h, kx * w, ky * h)
  {
    var dw, dh := kx * w, ky * h;
    var a, b := Scaled(src, w, h, dw, dh), Resized(src, w, h, dw, dh);
    forall x: nat, y: nat, c: nat | x < dw && y < dh && c < 3
      ensures Pixel(a, dw, x, y, c) == Pixel(b, dw, x, y, c)
    {
      ScaleSamplesLikeResize(src, w, h, kx, ky, dw, dh, x, y, c);
    }
    SamePixels(a, b, dw, dh);
  }

  /** Along one axis: the factor divides out, and both kernels sample x / k. */
  lemma AxisAgrees(x: nat, k: nat, w: nat, dw: nat)
    requires w > 0 && k > 0 && dw == k * w && x < dw
    ensures Div(dw, w) == k && w * Div(dw, w) == dw && Nearest(x, w, dw) == Div(x, k)
  {
    DivExact(k, w);
    DivCancel(x, k, w);
    assert w * k == k * w;
  }

  lemma ScaleSamplesLikeResize(
      src: Bytes, w: nat, h: nat, kx: nat, ky: nat, dw: nat, dh: nat, x: nat, y: nat, c: nat)
    requires w > 0 && h > 0 && kx > 0 && ky > 0 && x < dw && y < dh && c < 3
    requires dw == kx * w && dh == ky * h
    ensures Pixel(Scaled(src, w, h, dw, dh), dw, x, y, c)
            == Pixel(Resized(src, w, h, dw, dh), dw, x, y, c)
            == Pixel(src, w, Div(x, kx), Div(y, ky), c)
  {
    AxisAgrees(x, kx, w, dw);
    AxisAgrees(y, ky, h, dh);
    ScaledPixel(src, w, h, dw, dh, x, y, c);
    ResizedPixel(src, w, h, dw, dh, x, y, c);
  }

  /** Resizing a scaled image back gives the original. */
  lemma ResizeUndoesScale(src: Bytes, w: nat, h: nat, kx: nat, ky: nat)
    requires w > 0 && h > 0 && kx > 0 && ky > 0 && |src| == Size(w, h)
    ensures Resized(Scaled(src, w, h, kx * w, ky * h), kx * w, ky * h, w, h) == src
  {
    var dw, dh := kx * w, ky * h;
    var big := Scaled(src, w, h, dw, dh);
    var back := Resized(big, dw, dh, w, h);
    DivExact(kx, w);
    DivExact(ky, h);
    forall x: nat, y: nat, c: nat | x < w && y < h && c < 3
      ensures Pixel(back, w, x, y, c) == Pixel(src, w, x, y, c)
    {
      ResizedPixel(big, dw, dh, w, h, x, y, c);
      SampleBack(x, kx, w);
      SampleBack(y, ky, h);
      ScaledPixel(src, w, h, dw, dh, kx * x, ky * y, c);
      DivExact(x, kx);
      DivExact(y, ky);
    }
    SamePixels(back, src, w, h);
  }

  lemma SampleBack(x: nat, k: nat, w: nat)
    requires x < w && k > 0
    ensures Nearest(x, k * w, w) == k * x < w * k == k * w
  {
    assert x * (k * w) == (k * x) * w;
    DivExact(k * x, w);
    MulLe(k, x + 1, w);
  }

  /** Line doubling is integer scaling, and general resizing, to (w, 2*h). */
  lemma LineDoublingIsScaling(src: Bytes, w: nat, h: nat)
    requires w > 0 && h > 0 && |src| >= Size(w, h)
    ensures WholeRows(|src|, w * 3, h) == h
    ensures Doubled(src, w, h) == Scaled(src, w, h, w, 2 * h) == Resized(src, w, h, w, 2 * h)
  {
    assert (w * 3) * h == Size(w, h);
    DivAtLeast(|src|, w * 3, h);
    var a, b := Doubled(src, w, h), Scaled(src, w, h, w, 2 * h);
    DivExact(1, w);
    DivExact(2, h);
    forall x: nat, y: nat, c: nat | x < w && y < 2 * h && c < 3
      ensures Pixel(a, w, x, y, c) == Pixel(b, w, x, y, c)
    {
      DoubledPixel(src, w, h, x, y, c);
      ScaledPixel(src, w, h, w, 2 * h, x, y, c);
      DivUnique(x, 1, x, 0);
    }
    SamePixels(a, b, w, 2 * h);
    ScaleIsResize(src, w, h, 1, 2);
  }
}
