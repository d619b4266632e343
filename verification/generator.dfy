/** The batch generator (generator.py, class `Generator`): construction from
    a directory listing, the number of batches, and the batch at an index.
    What the model takes as parameters instead of computing:
    - the directory listing (`seq<ClassDir>`) and the one-hot encoder's
      category list;
    - the draws of the random generator seeded with 4321, used for both
      shuffles;
    - `decode`, which opens an image file as RGB, reverses its channels and
      scales its values (or fails on an unreadable file);
    - `interp`, OpenCV's area interpolation. */
module Generator {
  import opened Outcomes
  import opened Tensors
  import opened Samples
  import opened Shuffle
  import opened Partition
  import opened Resize
  import opened Batch

  /** Defaults of the constructor's keyword arguments. */
  const DefaultBatchSize: nat := 32
  const DefaultShuffle: bool := true
  const DefaultMinSide: int := 24

  datatype Generator = Generator(
    batchSize: nat,
    shuffle: bool,
    minSide: int,
    classes: seq<ClassName>,
    paths: seq<ImagePath>,
    labels: seq<Label>,
    imageGroups: seq<seq<ImagePath>>,
    labelGroups: seq<seq<Label>>)

  /** Label `i` is the one-hot row of the class directory of path `i`. */
  predicate Labelled(classes: seq<ClassName>, paths: seq<ImagePath>, labels: seq<Label>)
  {
    && |labels| == |paths|
    && forall i :: 0 <= i < |paths| ==>
         && paths[i].className in classes
         && labels[i] == OneHot(classes, paths[i].className)
  }

  /** Lemma: shuffling paths and labels with the same draws keeps every label
      with its path. */
  lemma ShuffleKeepsLabels(classes: seq<ClassName>, paths: seq<ImagePath>, labels: seq<Label>, draws: seq<nat>)
    requires Labelled(classes, paths, labels) && ValidDraws(draws, |paths|)
    ensures Labelled(classes, FisherYates(paths, draws), FisherYates(labels, draws))
  {
    var related := (p: ImagePath, l: Label) => p.className in classes && l == OneHot(classes, p.className);
    assert forall i :: 0 <= i < |paths| ==> related(paths[i], labels[i]);
    PairedShuffleKeepsRelation(paths, labels, draws, related);
    var ps, ls := FisherYates(paths, draws), FisherYates(labels, draws);
    assert forall i :: 0 <= i < |ps| ==> related(ps[i], ls[i]);
  }

  /** Every generator `Create` builds: each label is the one-hot row of the
      class directory of the path at the same index, and the groups are the
      wraparound partitions of the two lists. */
  predicate Valid(g: Generator)
  {
    && g.batchSize > 0
    && Labelled(g.classes, g.paths, g.labels)
    && g.imageGroups == Groups(g.paths, g.batchSize)
    && g.labelGroups == Groups(g.labels, g.batchSize)
  }

  /** `__init__`: load the sample set, shuffle paths and labels with the same
      draws when asked to, and cut both into groups of `batchSize`. A batch
      size of zero is a zero step for `range` once the samples are loaded. */
  function Create(listing: seq<ClassDir>, categories: seq<ClassName>, draws: seq<nat>,
                  batchSize: nat := DefaultBatchSize, shuffle: bool := DefaultShuffle,
                  minSide: int := DefaultMinSide): (r: Result<Generator>)
    requires IsCategoryList(categories, listing)
    requires shuffle ==> ValidDraws(draws, TotalFiles(listing))
    ensures r.Failure? <==> |listing| == 0 || TotalFiles(listing) == 0 || batchSize == 0
    ensures r.Failure? ==> r.error == (if |listing| == 0 then NoClasses
                                       else if TotalFiles(listing) == 0 then NoSamples
                                       else ZeroBatchSize)
    ensures r.Success? ==>
              && r.value.batchSize == batchSize
              && r.value.minSide == minSide
              && r.value.classes == categories
              && |r.value.paths| == TotalFiles(listing)
  {
    var s :- LoadSamples(listing, categories);
    var paths := if shuffle then FisherYates(s.paths, draws) else s.paths;
    var labels := if shuffle then FisherYates(s.labels, draws) else s.labels;
    if batchSize == 0 then Failure(ZeroBatchSize)
    else Success(Generator(batchSize, shuffle, minSide, s.classes, paths, labels,
                      Groups(paths, batchSize), Groups(labels, batchSize)))
  }

  /** Lemma: a created generator is `Valid`: its labels stay with their paths
      through the shuffle. */
  lemma CreateValid(listing: seq<ClassDir>, categories: seq<ClassName>, draws: seq<nat>, batchSize: nat,
                    shuffle: bool, minSide: int)
    requires batchSize > 0
    requires IsCategoryList(categories, listing)
    requires shuffle ==> ValidDraws(draws, TotalFiles(listing))
    requires TotalFiles(listing) > 0
    ensures Valid(Create(listing, categories, draws, batchSize, shuffle, minSide).value)
  {
    var s := LoadSamples(listing, categories).value;
    assert Labelled(categories, s.paths, s.labels);
    if shuffle {
      ShuffleKeepsLabels(categories, s.paths, s.labels, draws);
    }
  }

  /** Lemma: the samples of a created generator are the listed files, each
      once: in listing order when not shuffled, and otherwise in the order the
      draws give. */
  lemma CreateSamples(listing: seq<ClassDir>, categories: seq<ClassName>, draws: seq<nat>, batchSize: nat,
                    shuffle: bool, minSide: int)
    requires batchSize > 0
    requires IsCategoryList(categories, listing)
    requires shuffle ==> ValidDraws(draws, TotalFiles(listing))
    requires TotalFiles(listing) > 0
    ensures var g := Create(listing, categories, draws, batchSize, shuffle, minSide).value;
            && multiset(g.paths) == multiset(Flatten(listing))
            && (!shuffle ==> g.paths == Flatten(listing))
            && (shuffle ==> g.paths == Reindex(Flatten(listing), ShuffleOrder(|g.paths|, draws)))
  {
    if shuffle {
      ShuffleIsReindex(Flatten(listing), draws);
    }
  }

  /** `__len__`: the number of groups, one per start index `0, B, 2B, ...`
      below the number of samples. */
  function Len(g: Generator): (r: nat)
    requires Valid(g)
    ensures r == NumGroups(|g.paths|, g.batchSize)
    ensures r == |g.labelGroups|
    ensures forall k: nat :: k < r <==> k * g.batchSize < |g.paths|
  {
    forall k: nat ensures k < NumGroups(|g.paths|, g.batchSize) <==> k * g.batchSize < |g.paths| {
      NumGroupsExact(|g.paths|, g.batchSize, k);
    }
    |g.imageGroups|
  }

  /** Lemma: in every group of a valid generator, label `j` is the one-hot row
      of the class directory of path `j`: labels never drift from their
      images. */
  lemma GroupLabelsMatch(g: Generator, k: nat, j: nat)
    requires Valid(g) && k < Len(g) && j < g.batchSize
    ensures g.imageGroups[k][j].className in g.classes
    ensures g.labelGroups[k][j] == OneHot(g.classes, g.imageGroups[k][j].className)
  {
    GroupsPaired(g.paths, g.labels, g.batchSize, k, j);
  }

  /** Python list indexing: `-n <= index < n` is allowed, negative indices
      count from the end; anything else raises an index error. */
  function PyIndex(n: nat, index: int): (r: Result<nat>)
    ensures r.Success? <==> -(n as int) <= index < n
    ensures r.Failure? ==> r.error == IndexOutOfRange
    ensures r.Success? ==> r.value < n && (r.value - index) % n == 0
  {
    if 0 <= index < n then Success(index)
    else if -(n as int) <= index < 0 then Success((index + n) as nat)
    else Failure(IndexOutOfRange)
  }

  /** One entry of `load_images`: decode the file, then resize it. */
  function LoadImage(p: ImagePath, minSide: int, decode: ImagePath -> Result<Image>, interp: Interpolator): (r: Result<Image>)
    ensures r.Success? <==> decode(p).Success? && ResizeDims(decode(p).value.h, decode(p).value.w, minSide).Success?
    ensures r.Success? ==>
              var d := ResizeDims(decode(p).value.h, decode(p).value.w, minSide).value;
              r.value.h == d.h && r.value.w == d.w && r.value.c == decode(p).value.c
    ensures decode(p).Failure? ==> r == Failure(decode(p).error)
    ensures decode(p).Success? && r.Failure? ==> r.error == ZeroSide
    ensures r.Success? && Min(decode(p).value.h, decode(p).value.w) >= minSide ==> r.value == decode(p).value
    ensures r.Success? && r.value != decode(p).value ==>
              forall y, x, ch :: 0 <= y < r.value.h && 0 <= x < r.value.w && 0 <= ch < r.value.c ==>
                r.value.data[y][x][ch] == interp(decode(p).value, r.value.h, r.value.w, y, x, ch)
  {
    var img :- decode(p);
    ResizeImage(img, minSide, interp)
  }

  /** `load_images`: load every path of a group in order; the first failure
      aborts the whole group. */
  function LoadImages(paths: seq<ImagePath>, minSide: int, decode: ImagePath -> Result<Image>, interp: Interpolator)
    : (r: Result<seq<Image>>)
    ensures r.Success? <==> forall i :: 0 <= i < |paths| ==> LoadImage(paths[i], minSide, decode, interp).Success?
    ensures r.Success? ==>
              && |r.value| == |paths|
              && forall i :: 0 <= i < |paths| ==> r.value[i] == LoadImage(paths[i], minSide, decode, interp).value
    ensures r.Failure? ==>
              exists i :: 0 <= i < |paths| && LoadImage(paths[i], minSide, decode, interp) == Failure(r.error)
                && forall m :: 0 <= m < i ==> LoadImage(paths[m], minSide, decode, interp).Success?
  {
    if |paths| == 0 then Success([])
    else
      var first :- LoadImage(paths[0], minSide, decode, interp);
      var rest :- LoadImages(paths[1..], minSide, decode, interp);
      Success([first] + rest)
  }

  /** `__getitem__`: the group at `index`, loaded and padded into one batch
      tensor, with its label rows. */
  function GetItem(g: Generator, index: int, decode: ImagePath -> Result<Image>, interp: Interpolator)
    : (r: Result<(Tensor4, seq<Label>)>)
    requires Valid(g)
    ensures PyIndex(Len(g), index).Failure? ==> r == Failure(IndexOutOfRange)
    ensures PyIndex(Len(g), index).Success? ==>
              var k := PyIndex(Len(g), index).value;
              var loaded := LoadImages(g.imageGroups[k], g.minSide, decode, interp);
              && (r.Success? <==> loaded.Success?)
              && (r.Failure? ==> r.error == loaded.error)
              && (r.Success? ==>
                    && r.value.0 == Assemble(loaded.value, g.batchSize).value
                    && WellShaped4(r.value.0)
                    && r.value.0.n == g.batchSize
                    && r.value.1 == g.labelGroups[k]
                    && |r.value.1| == g.batchSize)
  {
    var k :- PyIndex(|g.imageGroups|, index);
    var images :- LoadImages(g.imageGroups[k], g.minSide, decode, interp);
    var batch := Assemble(images, g.batchSize).value;
    Success((batch, g.labelGroups[k]))
  }

  /** Lemma: for an index in range whose files all load, slot `j` of the batch
      holds exactly the resized image of path `j` of the group (padded with
      zeros), and label row `j` is the one-hot row of that path's class. */
  lemma GetItemPairsImagesWithLabels(g: Generator, index: nat, decode: ImagePath -> Result<Image>,
                                     interp: Interpolator, j: nat)
    requires Valid(g) && index < Len(g) && j < g.batchSize
    requires forall m :: 0 <= m < g.batchSize ==>
               LoadImage(g.imageGroups[index][m], g.minSide, decode, interp).Success?
    ensures GetItem(g, index, decode, interp).Success?
    ensures var (batch, labels) := GetItem(g, index, decode, interp).value;
            var p := g.imageGroups[index][j];
            var img := LoadImage(p, g.minSide, decode, interp).value;
            && img.h <= batch.h && img.w <= batch.w && img.c <= batch.c
            && Crop(batch, j, img.h, img.w, img.c) == img
            && (forall y, x, ch ::
                  && 0 <= y < batch.h && 0 <= x < batch.w && 0 <= ch < batch.c
                  && (y >= img.h || x >= img.w || ch >= img.c)
                  ==> batch.data[j][y][x][ch] == 0.0)
            && p.className in g.classes
            && labels[j] == OneHot(g.classes, p.className)
  {
    var group := g.imageGroups[index];
    var images := LoadImages(group, g.minSide, decode, interp).value;
    var batch := Assemble(images, g.batchSize).value;
    assert GetItem(g, index, decode, interp).value == (batch, g.labelGroups[index]);
    AssembleCropRoundTrip(images, g.batchSize, j);
    forall y: nat, x: nat, ch: nat | y < batch.h && x < batch.w && ch < batch.c &&
        (y >= images[j].h || x >= images[j].w || ch >= images[j].c)
      ensures batch.data[j][y][x][ch] == 0.0
    {
      AssemblePadsWithZero(images, g.batchSize, j, y, x, ch);
    }
    GroupLabelsMatch(g, index, j);
  }

  /** Lemma: a dataset of two classes, the first with 2 files and the second
      with 3 (say `cat` and `dog`, which the encoder keeps in that order),
      batch size 2, no shuffle: there are 3 batches, labels are 2 wide, and
      the last batch wraps around to samples 4 and 0 -- the last `dog` file
      labelled `[0, 1]`, then the first `cat` file labelled `[1, 0]`. */
  lemma TwoClassScenario(listing: seq<ClassDir>, draws: seq<nat>)
    requires |listing| == 2 && |listing[0].files| == 2 && |listing[1].files| == 3
    requires listing[0].name != listing[1].name
    ensures var categories := [listing[0].name, listing[1].name];
            IsCategoryList(categories, listing) &&
            var r := Create(listing, categories, draws, 2, false);
            && r.Success?
            && Valid(r.value)
            && Len(r.value) == 3
            && |r.value.classes| == 2
            && r.value.imageGroups[2] == [ImagePath(listing[1].name, listing[1].files[2]),
                                          ImagePath(listing[0].name, listing[0].files[0])]
            && r.value.labelGroups[2] == [[0, 1], [1, 0]]
  {
    var categories := [listing[0].name, listing[1].name];
    assert ClassNames(listing) == categories;
    TwoClassSamples(listing);
    assert TotalFiles(listing) == 5;
    CreateValid(listing, categories, draws, 2, false, DefaultMinSide);
    CreateSamples(listing, categories, draws, 2, false, DefaultMinSide);
    var g := Create(listing, categories, draws, 2, false).value;
    TwoClassGroups(g, ImagePath(listing[1].name, listing[1].files[2]), ImagePath(listing[0].name, listing[0].files[0]));
    assert OneHot(categories, listing[1].name) == [0, 1];
    assert OneHot(categories, listing[0].name) == [1, 0];
  }

  lemma TwoClassGroups(g: Generator, last: ImagePath, first: ImagePath)
    requires Valid(g) && g.batchSize == 2 && |g.paths| == 5
    requires g.paths[4] == last && g.paths[0] == first
    ensures Len(g) == 3
    ensures g.imageGroups[2] == [last, first]
    ensures last.className in g.classes && first.className in g.classes
    ensures g.labelGroups[2] == [OneHot(g.classes, last.className), OneHot(g.classes, first.className)]
  {
    var group := g.imageGroups[2];
    assert group[0] == last by {
      GroupEntry(g.paths, 2, 2, 0);
    }
    assert group[1] == first by {
      GroupEntry(g.paths, 2, 2, 1);
    }
    assert g.labelGroups[2][0] == OneHot(g.classes, last.className) by {
      GroupLabelsMatch(g, 2, 0);
    }
    assert g.labelGroups[2][1] == OneHot(g.classes, first.className) by {
      GroupLabelsMatch(g, 2, 1);
    }
  }

  lemma TwoClassSamples(listing: seq<ClassDir>)
    requires |listing| == 2 && |listing[0].files| == 2 && |listing[1].files| == 3
    ensures |Flatten(listing)| == 5
    ensures Flatten(listing)[4] == ImagePath(listing[1].name, listing[1].files[2])
    ensures Flatten(listing)[0] == ImagePath(listing[0].name, listing[0].files[0])
  {
    assert listing[..1][..0] == [];
    assert listing[..|listing| - 1] == listing[..1];
    FlattenIndex(listing, 1, 2);
    FlattenIndex(listing, 0, 0);
  }
}
