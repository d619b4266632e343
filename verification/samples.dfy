/** Construction of the sample set (generator.py, `load_image_paths_labels`).
    The directory scan is an input: one `ClassDir` per class directory, in the
    order the listing returned them, each with its file names in listing order.
    The sample set is the flattening of that listing into a list of image paths
    and, in lockstep, a list of one-hot label rows. */
module Samples {
  import opened Outcomes

  type ClassName = string

  /** One class directory: its name and the files it contains. */
  datatype ClassDir = ClassDir(name: ClassName, files: seq<string>)

  /** The path of one image file: the class directory it sits in and its own
      name. The dataset root is common to every path and is left implicit. */
  datatype ImagePath = ImagePath(className: ClassName, fileName: string)

  /** A one-hot label row: one cell per class. */
  type Label = seq<int>

  /** The flattened, labelled sample set, with the class list that orders the
      one-hot columns. */
  datatype SampleSet = SampleSet(classes: seq<ClassName>, paths: seq<ImagePath>, labels: seq<Label>)

  // ---------------------------------------------------------------------------
  // The listing

  /** The class directory names, in listing order. */
  function ClassNames(dirs: seq<ClassDir>): (r: seq<ClassName>)
    ensures |r| == |dirs|
    ensures forall k :: 0 <= k < |dirs| ==> r[k] == dirs[k].name
  {
    seq(|dirs|, k requires 0 <= k < |dirs| => dirs[k].name)
  }

  /** Number of files under all class directories. */
  function TotalFiles(dirs: seq<ClassDir>): nat
  {
    if |dirs| == 0 then 0 else TotalFiles(dirs[..|dirs| - 1]) + |dirs[|dirs| - 1].files|
  }

  /** Index in the flattened sample list of the first file of class directory `k`. */
  function Offset(dirs: seq<ClassDir>, k: nat): nat
    requires k <= |dirs|
  {
    TotalFiles(dirs[..k])
  }

  /** The paths of the files of one class directory, in listing order. */
  function DirPaths(d: ClassDir): (r: seq<ImagePath>)
    ensures |r| == |d.files|
    ensures forall j :: 0 <= j < |d.files| ==> r[j] == ImagePath(d.name, d.files[j])
  {
    seq(|d.files|, j requires 0 <= j < |d.files| => ImagePath(d.name, d.files[j]))
  }

  /** The sample paths: the files of every class directory, class after class. */
  function Flatten(dirs: seq<ClassDir>): (r: seq<ImagePath>)
    ensures |r| == TotalFiles(dirs)
    ensures forall i :: 0 <= i < |r| ==> r[i].className in ClassNames(dirs)
  {
    if |dirs| == 0 then []
    else Flatten(dirs[..|dirs| - 1]) + DirPaths(dirs[|dirs| - 1])
  }

  /** Lemma: file `j` of class directory `k` is sample number `Offset(dirs, k) + j`. */
  lemma {:induction false} FlattenIndex(dirs: seq<ClassDir>, k: nat, j: nat)
    requires k < |dirs| && j < |dirs[k].files|
    ensures Offset(dirs, k) + j < |Flatten(dirs)|
    ensures Flatten(dirs)[Offset(dirs, k) + j] == ImagePath(dirs[k].name, dirs[k].files[j])
  {
    var n := |dirs|;
    var init := dirs[..n - 1];
    if k < n - 1 {
      assert init[..k] == dirs[..k];
      assert init[k] == dirs[k];
      FlattenIndex(init, k, j);
    } else {
      assert dirs[..k] == init;
    }
  }

  /** Lemma: conversely, every sample is some file of some class directory, so
      the samples are exactly the listed files, each once. */
  lemma {:induction false} FlattenOrigin(dirs: seq<ClassDir>, i: nat) returns (k: nat, j: nat)
    requires i < |Flatten(dirs)|
    ensures k < |dirs| && j < |dirs[k].files|
    ensures Offset(dirs, k) + j == i
    ensures Flatten(dirs)[i] == ImagePath(dirs[k].name, dirs[k].files[j])
  {
    var n := |dirs|;
    var init := dirs[..n - 1];
    if i < |Flatten(init)| {
      k, j := FlattenOrigin(init, i);
      assert init[..k] == dirs[..k];
      assert init[k] == dirs[k];
    } else {
      k, j := n - 1, i - |Flatten(init)|;
      assert dirs[..k] == init;
    }
    FlattenIndex(dirs, k, j);
  }

  /** Lemma: the flattening of a listing one directory longer ends with that
      directory's files. */
  lemma FlattenSnoc(dirs: seq<ClassDir>, k: nat)
    requires k < |dirs|
    ensures Flatten(dirs[..k + 1]) == Flatten(dirs[..k]) + DirPaths(dirs[k])
    ensures TotalFiles(dirs[..k + 1]) == TotalFiles(dirs[..k]) + |dirs[k].files|
  {
    assert dirs[..k + 1][..k] == dirs[..k];
  }

  /** Mirrors the nested loop of `load_image_paths_labels`: for every class
      directory, for every file in it, append its path to one list and its class
      name to the other. The two lists grow in lockstep, so they end with equal
      length and the name at index `i` is the directory of path `i`. */
  method CollectSamples(dirs: seq<ClassDir>) returns (paths: seq<ImagePath>, names: seq<ClassName>)
    ensures paths == Flatten(dirs)
    ensures |names| == |paths| == TotalFiles(dirs)
    ensures forall i :: 0 <= i < |paths| ==> names[i] == paths[i].className
  {
    paths, names := [], [];
    var k := 0;
    while k < |dirs|
      invariant k <= |dirs|
      invariant paths == Flatten(dirs[..k])
      invariant |names| == |paths|
      invariant forall i :: 0 <= i < |paths| ==> names[i] == paths[i].className
    {
      var d := dirs[k];
      var j := 0;
      while j < |d.files|
        invariant j <= |d.files|
        invariant paths == Flatten(dirs[..k]) + DirPaths(d)[..j]
        invariant |names| == |paths|
        invariant forall i :: 0 <= i < |paths| ==> names[i] == paths[i].className
      {
        assert DirPaths(d)[..j + 1] == DirPaths(d)[..j] + [ImagePath(d.name, d.files[j])];
        paths := paths + [ImagePath(d.name, d.files[j])];
        names := names + [d.name];
        j := j + 1;
      }
      assert DirPaths(d)[..j] == DirPaths(d);
      FlattenSnoc(dirs, k);
      k := k + 1;
    }
    assert dirs[..k] == dirs;
  }

  // ---------------------------------------------------------------------------
  // One-hot encoding against the encoder's category list

  predicate Distinct<T(==)>(s: seq<T>)
  {
    forall i, j :: 0 <= i < j < |s| ==> s[i] != s[j]
  }

  /** `categories` is what the one-hot encoder fitted on the class names
      reports: every class name exactly once (in the encoder's own order). */
  predicate IsCategoryList(categories: seq<ClassName>, dirs: seq<ClassDir>)
  {
    && Distinct(categories)
    && (forall k :: 0 <= k < |dirs| ==> dirs[k].name in categories)
    && (forall c :: c in categories ==> c in ClassNames(dirs))
  }

  /** Position of `c` in `categories`: the first one holding it. */
  function IndexOf(categories: seq<ClassName>, c: ClassName): (k: nat)
    requires c in categories
    ensures k < |categories| && categories[k] == c
    ensures forall m :: 0 <= m < k ==> categories[m] != c
  {
    if categories[0] == c then 0 else 1 + IndexOf(categories[1..], c)
  }

  /** `row` is a one-hot vector of width `width` whose single 1 is at `hot`. */
  predicate IsOneHotAt(row: Label, width: nat, hot: nat)
  {
    && |row| == width
    && hot < width
    && forall m :: 0 <= m < width ==> row[m] == (if m == hot then 1 else 0)
  }

  /** The label row of class `c`. With distinct categories, its cell `m` is 1
      exactly when category `m` is `c`. */
  function OneHot(categories: seq<ClassName>, c: ClassName): (row: Label)
    requires c in categories
    ensures IsOneHotAt(row, |categories|, IndexOf(categories, c))
    ensures categories[IndexOf(categories, c)] == c
    ensures Distinct(categories) ==>
              forall m :: 0 <= m < |categories| ==> (row[m] == 1 <==> categories[m] == c)
  {
    var hot := IndexOf(categories, c);
    seq(|categories|, m requires 0 <= m < |categories| => if m == hot then 1 else 0)
  }

  /** First column holding a 1, if any. */
  function HotIndex(row: Label): (r: Option<nat>)
    ensures r.Some? ==> r.value < |row| && row[r.value] == 1
    ensures r.Some? ==> forall m :: 0 <= m < r.value ==> row[m] != 1
    ensures r.None? ==> forall m :: 0 <= m < |row| ==> row[m] != 1
  {
    if |row| == 0 then None
    else if row[0] == 1 then Some(0)
    else match HotIndex(row[1..])
      case None => None
      case Some(m) => Some(m + 1)
  }

  /** Decoding a label row back to its class name. */
  function DecodeLabel(categories: seq<ClassName>, row: Label): Option<ClassName>
  {
    match HotIndex(row)
    case Some(m) => if m < |categories| then Some(categories[m]) else None
    case None => None
  }

  /** Lemma: decoding the label of a class gives the class back, so the
      encoding loses nothing. */
  lemma DecodeOneHot(categories: seq<ClassName>, c: ClassName)
    requires c in categories
    ensures DecodeLabel(categories, OneHot(categories, c)) == Some(c)
  {
    var k := IndexOf(categories, c);
    assert OneHot(categories, c)[k] == 1;
  }

  /** Lemma: distinct classes get distinct label rows. */
  lemma OneHotInjective(categories: seq<ClassName>, c1: ClassName, c2: ClassName)
    requires c1 in categories && c2 in categories
    ensures OneHot(categories, c1) == OneHot(categories, c2) <==> c1 == c2
  {
    if OneHot(categories, c1) == OneHot(categories, c2) {
      DecodeOneHot(categories, c1);
      DecodeOneHot(categories, c2);
    }
  }

  /** The label rows of a list of class names: one row per name, and each
      row decodes back to its name. */
  function EncodeLabels(categories: seq<ClassName>, names: seq<ClassName>): (rows: seq<Label>)
    requires forall i :: 0 <= i < |names| ==> names[i] in categories
    ensures |rows| == |names|
    ensures forall i :: 0 <= i < |names| ==> DecodeLabel(categories, rows[i]) == Some(names[i])
  {
    forall i | 0 <= i < |names| ensures DecodeLabel(categories, OneHot(categories, names[i])) == Some(names[i]) {
      DecodeOneHot(categories, names[i]);
    }
    seq(|names|, i requires 0 <= i < |names| => OneHot(categories, names[i]))
  }

  /** `load_image_paths_labels`: fails when the listing has no class
      directories (the encoder cannot be fitted on nothing) and when the class
      directories hold no files (the encoder cannot transform an empty label
      array); otherwise the paths in listing order, paired index by index with
      the label row of the directory each came from, and the encoder's
      categories as class list. */
  function LoadSamples(dirs: seq<ClassDir>, categories: seq<ClassName>): (r: Result<SampleSet>)
    requires IsCategoryList(categories, dirs)
    ensures r.Failure? <==> |dirs| == 0 || TotalFiles(dirs) == 0
    ensures r.Failure? ==> r.error == (if |dirs| == 0 then NoClasses else NoSamples)
    ensures r.Success? ==>
              && r.value.classes == categories
              && r.value.paths == Flatten(dirs)
              && |r.value.labels| == |r.value.paths| == TotalFiles(dirs)
              && forall i :: 0 <= i < |r.value.paths| ==>
                   && r.value.paths[i].className in categories
                   && r.value.labels[i] == OneHot(categories, r.value.paths[i].className)
  {
    if |dirs| == 0 then Failure(NoClasses)
    else if TotalFiles(dirs) == 0 then Failure(NoSamples)
    else
      var paths := Flatten(dirs);
      var names := seq(|paths|, i requires 0 <= i < |paths| => paths[i].className);
      Success(SampleSet(categories, paths, EncodeLabels(categories, names)))
  }
}
