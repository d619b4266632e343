/** Zero-padded batch assembly (generator.py, `construct_image_batch`). The
    batch tensor has one slot per batch entry and, on each image axis, the
    largest extent of any image of the group. Every image is copied into the
    top-left corner of its slot; every other cell, including whole slots with no
    image, is zero. */
module Batch {
  import opened Outcomes
  import opened Tensors

  /** Largest element of a non-empty list. */
  function MaxOf(xs: seq<nat>): (m: nat)
    requires |xs| > 0
    ensures forall i :: 0 <= i < |xs| ==> xs[i] <= m
    ensures exists i :: 0 <= i < |xs| && xs[i] == m
  {
    if |xs| == 1 then xs[0]
    else
      var rest := MaxOf(xs[1..]);
      if xs[0] < rest then rest else xs[0]
  }

  /** Extent of an image along axis 0 (rows), 1 (columns) or 2 (channels). */
  function Extent(img: Image, axis: nat): nat
  {
    if axis == 0 then img.h else if axis == 1 then img.w else img.c
  }

  function Extents(imgs: seq<Image>, axis: nat): (r: seq<nat>)
    ensures |r| == |imgs|
    ensures forall i :: 0 <= i < |imgs| ==> r[i] == Extent(imgs[i], axis)
  {
    seq(|imgs|, i requires 0 <= i < |imgs| => Extent(imgs[i], axis))
  }

  /** The cell of slot `i` at row `y`, column `x`, channel `ch`: the image's
      own value inside its extent, zero elsewhere. */
  function Cell(imgs: seq<Image>, i: nat, y: nat, x: nat, ch: nat): real
  {
    if i < |imgs| && y < imgs[i].h && x < imgs[i].w && ch < imgs[i].c
    then imgs[i].data[y][x][ch]
    else 0.0
  }

  /** `construct_image_batch` with `slots` batch entries. Fails on an empty
      group (the maximum of no extents) and on a group with more images than
      slots (the copy indexes past the last slot). */
  function Assemble(imgs: seq<Image>, slots: nat): (r: Result<Tensor4>)
    ensures r.Failure? <==> |imgs| == 0 || |imgs| > slots
    ensures r.Failure? ==> r.error == (if |imgs| == 0 then EmptyGroup else GroupTooLarge)
    ensures r.Success? ==>
              && WellShaped4(r.value)
              && r.value.n == slots
              && r.value.h == MaxOf(Extents(imgs, 0))
              && r.value.w == MaxOf(Extents(imgs, 1))
              && r.value.c == MaxOf(Extents(imgs, 2))
  {
    if |imgs| == 0 then Failure(EmptyGroup)
    else if |imgs| > slots then Failure(GroupTooLarge)
    else
      var h, w, c := MaxOf(Extents(imgs, 0)), MaxOf(Extents(imgs, 1)), MaxOf(Extents(imgs, 2));
      Success(Tensor4(slots, h, w, c,
        seq(slots, i requires 0 <= i < slots =>
          seq(h, y requires 0 <= y < h =>
            seq(w, x requires 0 <= x < w =>
              seq(c, ch requires 0 <= ch < c => Cell(imgs, i, y, x, ch)))))))
  }

  /** Lemma: the batch shape is the smallest that holds every image: each
      image fits inside a slot, and on each axis some image reaches the edge. */
  lemma AssembleFitsTightly(imgs: seq<Image>, slots: nat)
    requires 0 < |imgs| <= slots
    ensures var t := Assemble(imgs, slots).value;
            && (forall i :: 0 <= i < |imgs| ==> imgs[i].h <= t.h && imgs[i].w <= t.w && imgs[i].c <= t.c)
            && (exists i :: 0 <= i < |imgs| && imgs[i].h == t.h)
            && (exists i :: 0 <= i < |imgs| && imgs[i].w == t.w)
            && (exists i :: 0 <= i < |imgs| && imgs[i].c == t.c)
  {
    var t := Assemble(imgs, slots).value;
    var hs, ws, cs := Extents(imgs, 0), Extents(imgs, 1), Extents(imgs, 2);
    assert forall i :: 0 <= i < |imgs| ==> hs[i] <= t.h && ws[i] <= t.w && cs[i] <= t.c;
    var ih :| 0 <= ih < |imgs| && hs[ih] == t.h;
    var iw :| 0 <= iw < |imgs| && ws[iw] == t.w;
    var ic :| 0 <= ic < |imgs| && cs[ic] == t.c;
    assert imgs[ih].h == t.h && imgs[iw].w == t.w && imgs[ic].c == t.c;
  }

  /** The top-left `h` by `w` by `c` corner of slot `i`. */
  function Crop(t: Tensor4, i: nat, h: nat, w: nat, c: nat): (r: Image)
    requires WellShaped4(t) && i < t.n && h <= t.h && w <= t.w && c <= t.c
    ensures r.h == h && r.w == w && r.c == c
  {
    Tensor3(h, w, c,
      seq(h, y requires 0 <= y < h =>
        seq(w, x requires 0 <= x < w =>
          seq(c, ch requires 0 <= ch < c => t.data[i][y][x][ch]))))
  }

  /** Lemma: no information is lost: cropping slot `i` of the batch to the
      extent of image `i` gives image `i` back. */
  lemma AssembleCropRoundTrip(imgs: seq<Image>, slots: nat, i: nat)
    requires 0 < |imgs| <= slots && i < |imgs|
    ensures var t := Assemble(imgs, slots).value;
            && imgs[i].h <= t.h && imgs[i].w <= t.w && imgs[i].c <= t.c
            && Crop(t, i, imgs[i].h, imgs[i].w, imgs[i].c) == imgs[i]
  {
    var t := Assemble(imgs, slots).value;
    var img := imgs[i];
    AssembleFitsTightly(imgs, slots);
    var r := Crop(t, i, img.h, img.w, img.c);
    forall y | 0 <= y < img.h
      ensures r.data[y] == img.data[y]
    {
      forall x | 0 <= x < img.w
        ensures r.data[y][x] == img.data[y][x]
      {
        assert forall ch :: 0 <= ch < img.c ==> r.data[y][x][ch] == Cell(imgs, i, y, x, ch);
      }
    }
    assert r.data == img.data;
  }

  /** Lemma: every cell outside the copied corner of its slot is zero,
      including every cell of a slot beyond the last image. */
  lemma AssemblePadsWithZero(imgs: seq<Image>, slots: nat, i: nat, y: nat, x: nat, ch: nat)
    requires 0 < |imgs| <= slots
    requires var t := Assemble(imgs, slots).value; i < t.n && y < t.h && x < t.w && ch < t.c
    requires i >= |imgs| || y >= imgs[i].h || x >= imgs[i].w || ch >= imgs[i].c
    ensures Assemble(imgs, slots).value.data[i][y][x][ch] == 0.0
  {
  }
}
