/** The size arithmetic of `resize_image` (generator.py). An image whose
    shorter side is below `minSide` is scaled up uniformly so that its shorter
    side becomes `minSide`; any other image keeps its size. The scale is
    `minSide / shorter`, and each new side is the truncation of the old side
    times the scale, computed here exactly as `side * minSide / shorter`.
    The resampling of pixel values is an `Interpolator` parameter. */
module Resize {
  import opened Outcomes
  import opened Tensors
  import opened Arith

  datatype Dims = Dims(h: nat, w: nat)

  function Min(a: int, b: int): int { if a < b then a else b }

  function Max(a: int, b: int): int { if a < b then b else a }

  /** New height and width for an image of `h` by `w` and target `minSide`.
      Fails on an image with a zero-length side: when that side is below
      `minSide` the scale divides by zero, and otherwise OpenCV refuses to
      resize an empty image. */
  function ResizeDims(h: nat, w: nat, minSide: int): (r: Result<Dims>)
    ensures r.Failure? <==> Min(h, w) == 0
    ensures r.Failure? ==> r.error == ZeroSide
    ensures r.Success? && Min(h, w) >= minSide ==> r.value == Dims(h, w)
    ensures r.Success? ==> r.value.h >= h && r.value.w >= w
    ensures r.Success? ==> Min(r.value.h, r.value.w) == Max(Min(h, w), minSide)
  {
    // the source divides by h when h < w and by w otherwise: by the shorter side
    var shorter := if h < w then h else w;
    if shorter == 0 then Failure(ZeroSide)
    else if shorter < minSide then
      var m: nat := minSide;
      ScaledSides(h, w, shorter, m);
      Success(Dims(h * m / shorter, w * m / shorter))
    else Success(Dims(h, w))
  }

  lemma ScaledSides(h: nat, w: nat, s: nat, m: nat)
    requires s == Min(h, w) && 0 < s < m
    ensures h * m / s >= h && w * m / s >= w
    ensures Min(h * m / s, w * m / s) == m
  {
    MulDivCancel(m, s);
    MulDivAtLeast(h, m, s);
    MulDivAtLeast(w, m, s);
    if h < w {
      assert h == s;
      DivMonotone(s * m, w * m, s);
    } else {
      assert w == s;
      DivMonotone(s * m, h * m, s);
    }
  }

  lemma MulDivAtLeast(x: nat, m: nat, s: nat)
    requires 0 < s <= m
    ensures x * m / s >= x
  {
    MulMonotone(s, m, x);
    assert x * s <= x * m;
    DivMonotone(x * s, x * m, s);
    MulDivCancel(x, s);
    assert s * x == x * s;
  }

  /** Lemma: when scaling happens, each new side is the largest whole number
      not exceeding the old side times `minSide / shorter` -- the truncation
      `int(side * scale)` in exact arithmetic -- so the aspect ratio is kept up
      to truncation. */
  lemma ResizeTruncates(h: nat, w: nat, minSide: int)
    requires 0 < Min(h, w) < minSide
    ensures ResizeDims(h, w, minSide).Success?
    ensures var d := ResizeDims(h, w, minSide).value;
            var s := Min(h, w);
            && d.h * s <= h * minSide < (d.h + 1) * s
            && d.w * s <= w * minSide < (d.w + 1) * s
  {
    var s := Min(h, w);
    var m: nat := minSide;
    DivMod(h * m, s);
    DivMod(w * m, s);
  }

  /** Lemma: resizing is idempotent: a resized image already has its shorter
      side at least `minSide`, so resizing it again leaves it as it is. */
  lemma ResizeIdempotent(h: nat, w: nat, minSide: int)
    requires ResizeDims(h, w, minSide).Success?
    ensures var d := ResizeDims(h, w, minSide).value;
            ResizeDims(d.h, d.w, minSide) == Success(d)
  {
  }

  /** Value of channel `ch` at row `y`, column `x` of an image resampled to a
      new height and width, as (image, new height, new width, y, x, ch). */
  type Interpolator = (Image, nat, nat, nat, nat, nat) -> real

  /** `resize_image`: the image at its new size. An image that keeps its size
      is returned as it is; any other image is resampled to its new size with
      its channel count unchanged. */
  function ResizeImage(img: Image, minSide: int, interp: Interpolator): (r: Result<Image>)
    ensures r.Success? <==> ResizeDims(img.h, img.w, minSide).Success?
    ensures r.Success? ==>
              && r.value.h == ResizeDims(img.h, img.w, minSide).value.h
              && r.value.w == ResizeDims(img.h, img.w, minSide).value.w
              && r.value.c == img.c
    ensures r.Success? && Min(img.h, img.w) >= minSide ==> r.value == img
    ensures r.Success? && r.value != img ==>
              forall y, x, ch :: 0 <= y < r.value.h && 0 <= x < r.value.w && 0 <= ch < r.value.c ==>
                r.value.data[y][x][ch] == interp(img, r.value.h, r.value.w, y, x, ch)
    ensures r.Failure? ==> r.error == ZeroSide
  {
    var d :- ResizeDims(img.h, img.w, minSide);
    if d == Dims(img.h, img.w) then Success(img)
    else
      var t := Tensor3(d.h, d.w, img.c,
        seq(d.h, y requires 0 <= y < d.h =>
          seq(d.w, x requires 0 <= x < d.w =>
            seq(img.c, ch requires 0 <= ch < img.c => interp(img, d.h, d.w, y, x, ch)))));
      Success(t)
  }
}
