# Batch generator model

A Dafny model of `generator.py`, a Keras `Sequence` that serves image
classification batches from a dataset root holding one sub-directory per
class. The generator:

- lists the class directories and their files, and builds a flat list of
  image paths with, in lockstep, the one-hot label row of each path's class
  (`load_image_paths_labels`);
- optionally shuffles paths and labels, re-seeding NumPy's generator with
  4321 before each list so that both get the same permutation
  (`create_image_groups`);
- cuts both lists into groups of exactly `BATCH_SIZE` entries; the last group
  wraps around to the start of the list instead of being short;
- reports the number of groups (`__len__`);
- for a group index, decodes and resizes each image of the group so that its
  shorter side is at least `image_min_side`, and copies the images into the
  top-left corners of a zero-filled batch tensor whose extent on each axis is
  the largest of the group (`__getitem__`).

Modules, one per file:

- `outcomes.dfy`: `Error`, `Option` and `Result`.
- `samples.dfy`: the listing and its flattening, the nested collection loop,
  and the one-hot encoding.
- `shuffle.dfy`: NumPy's Fisher–Yates shuffle over a given stream of draws,
  shown to be a reindexing by a permutation and to keep partners paired.
- `partition.dfy`: the wraparound groups.
- `arith.dfy`: division and remainder facts for natural numbers.
- `resize.dfy`: the new height and width, and the resized image.
- `tensors.dfy`: images and batch tensors.
- `batch.dfy`: zero-padded batch assembly.
- `generator.dfy`: the generator itself, namely construction, `__len__`,
  `__getitem__`, the invariant tying labels to paths, and a two-class example.

Things the code takes from outside are parameters of the model:

- the directory listing;
- the one-hot encoder's category list (sklearn sorts the unique class
  names; the model asks only that the list is duplicate-free and has the
  same names as the listing);
- the draws of the seeded random generator;
- `decode`, which stands for opening a file as RGB, reversing the channels
  and `preprocess_image`'s scaling, and may fail with any error;
- `interp`, OpenCV's area interpolation.

## Model

| member | source | states |
|---|---|---|
| Samples.CollectSamples | generator.py:36-42 | the nested loop over class directories and their files yields exactly the flattened listing, with the class name at index `i` being the directory of path `i`, and both lists of length equal to the total file count |
| Samples.Flatten | generator.py:38-41 | the path list has one entry per listed file, and every entry's class is one of the listed directories |
| Samples.FlattenIndex | generator.py:38-41 | file `j` of directory `k` is path number `Offset(k) + j`: directories in listing order, files in listing order within each |
| Samples.FlattenOrigin | generator.py:38-41 | conversely, every path is file `j` of some directory `k` at that offset, so the paths are exactly the listed files |
| Samples.IndexOf | generator.py:34 | the column of a class in the category list is where it sits, and no earlier column holds it |
| Samples.OneHot | generator.py:45 | a class's label row has one cell per category, a single 1 at the class's column and 0 elsewhere; with distinct categories, cell `m` is 1 exactly when category `m` is the class |
| Samples.HotIndex | generator.py:45 | the first column holding a 1 in a row, or none when no column does |
| Samples.DecodeOneHot | generator.py:32-34 | decoding a class's label row gives the class back, so the encoding loses nothing |
| Samples.OneHotInjective | generator.py:32-34 | two classes have equal label rows exactly when they are the same class |
| Samples.EncodeLabels | generator.py:45 | the encoded label list has one row per class name, and row `i` decodes back to name `i`, so the transform loses no label |
| Samples.LoadSamples | generator.py:29-47 | fails exactly when there are no class directories (the encoder cannot be fitted) or the directories hold no files (the encoder cannot transform zero samples), in that order; otherwise the class list is the encoder's categories, the paths are the flattened listing, and each label is the one-hot row of its path's directory, with as many labels as paths |
| Shuffle.Swap | generator.py:54 | one shuffle step exchanges the items at `i` and `j` and leaves every other position as it was |
| Shuffle.SwapMultiset | generator.py:54 | a swap keeps the multiset of items |
| Shuffle.ShuffleFromMultiset | generator.py:54 | every suffix of the shuffle's steps keeps the multiset of items |
| Shuffle.FisherYates | generator.py:50-56 | the shuffle keeps the length and the multiset of items |
| Shuffle.ShuffleOrder | generator.py:52-56 | the order the draws leave the items in is a permutation of `0 .. n-1`, so no item is dropped or repeated |
| Shuffle.ShuffleFromInRange | generator.py:54 | shuffling a list of indices below `n` keeps them below `n` |
| Shuffle.ShuffleFromReindex | generator.py:54 | shuffling a reindexed list is reindexing by the shuffled order |
| Shuffle.ShuffleIsReindex | generator.py:52-56 | the shuffle of any list is that list reindexed by the permutation that depends only on the draws and the length, not on the items |
| Shuffle.SwapPermutation | generator.py:54 | a swap of a permutation is a permutation |
| Shuffle.ShuffleFromPermutation | generator.py:54 | the shuffle of a permutation is a permutation |
| Shuffle.PairedShuffle | generator.py:52-56 | shuffling paths and labels with the same draws equals shuffling their pairs, so the multiset of (path, label) pairs is unchanged |
| Shuffle.PairedShuffleKeepsRelation | generator.py:52-56 | any relation that holds between the two lists index by index before the paired shuffle still holds after it |
| Partition.NumGroupsExact | generator.py:60 | group `k` exists exactly when its start `k * B` is below the number of samples, as `range(0, N, B)` enumerates |
| Partition.NumGroupsBounds | generator.py:60 | the groups hold between `N` and `N + B - 1` entries in all, and there are none exactly when there are no samples |
| Partition.Groups | generator.py:59-60 | there are `ceil(N / B)` groups and every group has exactly `B` entries |
| Partition.GroupEntry | generator.py:59 | entry `j` of group `k` is the sample at `(k * B + j) mod N` |
| Partition.GroupsCover | generator.py:59-60 | every sample `i` appears in the groups, at entry `i mod B` of group `i div B`, so none is skipped |
| Partition.GroupsWrap | generator.py:59 | for any entry at or past the end of the samples (`N <= k * B + j`, also when a group is longer than the sample list and wraps more than once), the sample list is not empty and the entry is the one `N` places back, `xs[(k * B + j - N) mod N]` |
| Partition.GroupsPaired | generator.py:59-62 | the image and label groups of two equally long lists take entry `j` of group `k` from the same index |
| Resize.ResizeDims | generator.py:66-75 | fails exactly on a zero-length side; an image whose shorter side already reaches `min_side` keeps its size; otherwise no side shrinks and the shorter side becomes exactly `min_side` |
| Resize.ScaledSides | generator.py:70-75 | scaling both sides by `min_side / shorter` grows both sides and makes the shorter one exactly `min_side` |
| Resize.ResizeTruncates | generator.py:74-75 | each scaled side is the largest whole number not above the old side times the scale, which keeps the aspect ratio up to truncation |
| Resize.ResizeIdempotent | generator.py:64-75 | resizing a resized image leaves its size unchanged |
| Resize.ResizeImage | generator.py:64-77 | the resized image has the new height and width and the old channel count; it fails exactly when the size computation fails, and then with the zero-side error; it is the image itself when no scaling is needed, and otherwise every pixel is the interpolation of the old image at the new size |
| Batch.MaxOf | generator.py:108 | the maximum of a non-empty list bounds every element and is one of them |
| Batch.Assemble | generator.py:106-117 | fails exactly on an empty group or on more images than slots; otherwise the batch has one slot per batch entry and, on each axis, the largest extent of the group |
| Batch.AssembleFitsTightly | generator.py:108-111 | every image fits its slot, and on each axis some image reaches the edge |
| Batch.Crop | generator.py:115 | the crop has the requested height, width and channel count |
| Batch.AssembleCropRoundTrip | generator.py:113-115 | cropping slot `i` to the extent of image `i` gives image `i` back |
| Batch.AssemblePadsWithZero | generator.py:111-115 | every cell outside an image's corner is zero, including every cell of a slot with no image |
| Generator.ShuffleKeepsLabels | generator.py:50-56 | after the paired shuffle, every label is still the one-hot row of its path's class |
| Generator.Create | generator.py:13-27 | construction fails exactly on an empty listing (no classes), on class directories without files (no samples) or on a batch size of zero (a zero `range` step), in that order of precedence; otherwise it keeps the batch size, minimum side and category list, and has one path per listed file. Batch size, shuffle and minimum side default to 32, true and 24 |
| Generator.CreateValid | generator.py:23-62 | a constructed generator's label at every index is the one-hot row of its path's class, and its groups are the wraparound partitions of both lists |
| Generator.CreateSamples | generator.py:36-56 | a constructed generator's paths are the listed files, each once: in listing order when not shuffled, and otherwise in the order of the permutation the draws give |
| Generator.Len | generator.py:119-124 | the number of batches is `ceil(N / B)`: batch `k` exists exactly when `k * B < N` |
| Generator.GroupLabelsMatch | generator.py:59-62 | in every batch, label `j` is the one-hot row of the class of image path `j` |
| Generator.PyIndex | generator.py:130-131 | a list index is accepted exactly in `-n .. n-1`, and a negative index counts from the end |
| Generator.LoadImage | generator.py:98-102 | loading a file succeeds exactly when it decodes and its size can be computed; a decoding failure passes the decoder's error on, and otherwise a failure is the zero-side error; on success the image has the new size and the decoded channel count, is the decoded image itself when its shorter side already reaches `min_side`, and otherwise has every pixel interpolated from the decoded image |
| Generator.LoadImages | generator.py:95-104 | loading a group succeeds exactly when every file loads, and then gives the loaded images in group order; a failure is the failure of the first file that fails, every earlier file having loaded |
| Generator.GetItem | generator.py:126-135 | an index out of range fails; otherwise the batch is produced exactly when every image of the group loads, a failure carries the error of the first file that fails to load, and then it is the zero-padded assembly of the loaded images (so `B` slots, each axis the group's largest extent) paired with the label group at that index |
| Generator.GetItemPairsImagesWithLabels | generator.py:126-135 | slot `j` of a batch holds exactly the loaded image of path `j` of the group in its top-left corner and zero in every other cell, and label row `j` is the one-hot row of that path's class |
| Generator.TwoClassGroups | generator.py:59-62 | with five samples and batch size 2 there are three batches, and the last one wraps around to samples 4 and 0 with their labels |
| Generator.TwoClassScenario | generator.py:29-62 | with two classes of 2 and 3 files, batch size 2 and no shuffle: three batches, two-wide labels, and a last batch of the last file of the second class labelled `[0, 1]` and the first file of the first class labelled `[1, 0]` |

## Left out

- Directory listing, path joining and the dataset root: the listing is an
  input, and a path is a (class directory, file name) pair.
- Image decoding, the RGB conversion and the channel reversal are folded into
  the `decode` parameter; they are library code working on pixel values.
- `preprocess_image` (generator.py:79-93), the generator's own normalisation
  of pixels to `[-1, 1]` by a `float32` cast, a division by 127.5 and a
  subtraction of 1, is floating-point arithmetic on pixel values and is folded
  into `decode` as well.
- The channel count of a decoded image is not constrained to 3: `decode` may
  return any well-shaped image, where `.convert('RGB')` always gives three
  channels. The model only copies channels, so nothing depends on the count.
- The decoder's errors are whatever `decode` returns; the model has no error
  value of its own for an unreadable file.
- OpenCV's area interpolation: pixel values of a rescaled image come from the
  `interp` parameter. When the size is unchanged the model returns the image
  itself, where OpenCV returns an equal copy.
- `resize_image`'s second and third results, the ratios `new_h / h` and
  `new_w / w`, are floating point and unused by every caller.
- Resize.ResizeDims: computes the new sides exactly as `side * min_side /
  shorter`. The source computes `int(side * (float(min_side) / shorter))` in
  double precision, which can come out one lower when the product lands just
  below a whole number.
- NumPy's random stream: the draws are a parameter. Re-seeding before each
  shuffle means the same draws for both lists. NumPy's legacy shuffle uses the
  same swap loop for a Python list and for the rows of a 2-D array.
- The one-hot encoder's ordering of its categories (sorted class names) is a
  parameter.
- Labels are integer rows of 0 and 1; the source stores them as `float32`.
- Pixel values are reals, not `float32`; the generator only copies them.
- `tf.keras.utils.Sequence` machinery (epoch callbacks, multiprocessing) and
  the `__main__` block.
- Negative batch sizes: the batch size is a natural number. In the source a
  negative step gives an empty `range`, so there would be no batches.
