/** Dense numeric arrays as nested sequences. An image is a rank-3 array of
    shape (height, width, channels) indexed `[row][column][channel]`; a batch is
    a rank-4 array of shape (slots, height, width, channels). Pixel values are
    reals: the generator only copies them, it never computes with them. */
module Tensors {

  datatype Tensor3 = Tensor3(h: nat, w: nat, c: nat, data: seq<seq<seq<real>>>)

  /** The data has the extent the shape announces on every axis. */
  predicate WellShaped(t: Tensor3)
  {
    && |t.data| == t.h
    && forall y :: 0 <= y < t.h ==>
         && |t.data[y]| == t.w
         && forall x :: 0 <= x < t.w ==> |t.data[y][x]| == t.c
  }

  type Image = t: Tensor3 | WellShaped(t) witness Tensor3(0, 0, 0, [])

  datatype Tensor4 = Tensor4(n: nat, h: nat, w: nat, c: nat, data: seq<seq<seq<seq<real>>>>)

  predicate WellShaped4(t: Tensor4)
  {
    && |t.data| == t.n
    && forall i :: 0 <= i < t.n ==>
         && |t.data[i]| == t.h
         && forall y :: 0 <= y < t.h ==>
              && |t.data[i][y]| == t.w
              && forall x :: 0 <= x < t.w ==> |t.data[i][y][x]| == t.c
  }
}
