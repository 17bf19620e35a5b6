/**
 * `load_data` and `load_data_no_csv` from model.py: which dataset layout is
 * used, and how directory mode pairs every image with the angle read from its
 * file name. The file system is a parameter: `fileExists` stands for
 * `os.path.exists`, the three file lists for what `glob.glob` returns, `open`
 * for `Image.open` and `angleOf` for `extract_steering_angle` (`None` when it raises).
 */
module DataLoading {
  import opened Wrappers
  import opened PyStrings
  import opened SteeringLabels

  const INDEX_FILE := "driving_log.csv"

  /** Where the samples come from: the CSV index, or the `glob` patterns of the three camera directories. */
  datatype Source =
    | Indexed(csvPath: string)
    | Directories(forward: string, left: string, right: string)

  /** The `glob` pattern of one camera directory: `os.path.join(data_dir, sub, '*.png')`. */
  function ImagePattern(dataDir: string, sub: string): string {
    PathJoin(PathJoin(dataDir, sub), "*.png")
  }

  /**
   * `load_data`: the CSV branch is taken exactly when `<data_dir>/driving_log.csv`
   * exists; otherwise the images under Forward, Left and Right are globbed.
   */
  function LoadData(dataDir: string, fileExists: string -> bool): (src: Source)
    ensures src.Indexed? <==> fileExists(PathJoin(dataDir, INDEX_FILE))
    ensures src.Indexed? ==> Basename(src.csvPath) == INDEX_FILE && fileExists(src.csvPath)
    ensures src.Directories? ==>
      && Basename(src.forward) == "*.png" && Basename(src.left) == "*.png" && Basename(src.right) == "*.png"
      && src.forward == ImagePattern(dataDir, "Forward")
      && src.left == ImagePattern(dataDir, "Left")
      && src.right == ImagePattern(dataDir, "Right")
  {
    var csv := PathJoin(dataDir, INDEX_FILE);
    if fileExists(csv) then
      assert '/' !in INDEX_FILE;
      BasenameOfJoin(dataDir, INDEX_FILE);
      Indexed(csv)
    else
      PatternBasename(dataDir, "Forward");
      PatternBasename(dataDir, "Left");
      PatternBasename(dataDir, "Right");
      Directories(ImagePattern(dataDir, "Forward"), ImagePattern(dataDir, "Left"), ImagePattern(dataDir, "Right"))
  }

  lemma PatternBasename(dataDir: string, sub: string)
    ensures Basename(ImagePattern(dataDir, sub)) == "*.png"
  {
    assert '/' !in "*.png";
    BasenameOfJoin(PathJoin(dataDir, sub), "*.png");
  }

  /** The two parallel lists `X` (images) and `y` (angles) that the loader builds. */
  datatype Loaded<I, L> = Loaded(images: seq<I>, angles: seq<L>)

  /** `k` is the first file whose angleOf cannot be read. */
  predicate FirstFailure<L>(files: seq<string>, angleOf: string -> Option<L>, k: int) {
    0 <= k < |files| && angleOf(files[k]).None? &&
    forall j :: 0 <= j < k ==> angleOf(files[j]).Some?
  }

  /**
   * What the loader's loops produce from the files in the order they are
   * visited: either every image paired with its angle, or the first file whose
   * angle does not parse (where Python raises and nothing is returned).
   */
  function Accumulate<I, L>(files: seq<string>, open: string -> I, angleOf: string -> Option<L>)
    : Result<Loaded<I, L>, string>
    decreases |files|
  {
    if files == [] then Ok(Loaded([], []))
    else
      var file := files[|files| - 1];
      match Accumulate(files[..|files| - 1], open, angleOf)
      case Err(e) => Err(e)
      case Ok(acc) =>
        match angleOf(file)
        case None => Err(file)
        case Some(angle) => Ok(Loaded(acc.images + [open(file)], acc.angles + [angle]))
  }

  /**
   * Accumulation succeeds exactly when every file's angle parses; then image i
   * and angle i both come from file i, so the lists stay paired. Otherwise the
   * error names a file whose angle does not parse and before which all did.
   */
  lemma {:induction false} AccumulateMeaning<I, L>(files: seq<string>, open: string -> I, angleOf: string -> Option<L>)
    ensures var r := Accumulate(files, open, angleOf);
      && (r.Ok? <==> forall i :: 0 <= i < |files| ==> angleOf(files[i]).Some?)
      && (r.Ok? ==>
            && |r.value.images| == |files| && |r.value.angles| == |files|
            && forall i :: 0 <= i < |files| ==>
                 r.value.images[i] == open(files[i]) && angleOf(files[i]) == Some(r.value.angles[i]))
      && (r.Err? ==> exists k :: FirstFailure(files, angleOf, k) && files[k] == r.error)
    decreases |files|
  {
    if files != [] {
      var front := files[..|files| - 1];
      var file := files[|files| - 1];
      AccumulateMeaning(front, open, angleOf);
      assert forall i :: 0 <= i < |front| ==> front[i] == files[i];
      match Accumulate(front, open, angleOf)
      case Err(e) =>
        var k :| FirstFailure(front, angleOf, k) && front[k] == e;
        assert FirstFailure(files, angleOf, k);
      case Ok(acc) =>
        if angleOf(file).None? {
          assert FirstFailure(files, angleOf, |files| - 1);
        }
    }
  }

  /** The error is exactly the first file, in visiting order, whose angle does not parse. */
  lemma AccumulateStopsAtFirstFailure<I, L>(files: seq<string>, open: string -> I, angleOf: string -> Option<L>, k: int)
    requires FirstFailure(files, angleOf, k)
    ensures Accumulate(files, open, angleOf) == Err(files[k])
  {
    AccumulateMeaning(files, open, angleOf);
    var r := Accumulate(files, open, angleOf);
    var k' :| FirstFailure(files, angleOf, k') && files[k'] == r.error;
  }

  /** Once a file fails, files visited later change nothing: the error stays. */
  lemma AccumulateErrSticky<I, L>(files: seq<string>, more: seq<string>, open: string -> I, angleOf: string -> Option<L>)
    requires Accumulate(files, open, angleOf).Err?
    ensures Accumulate(files + more, open, angleOf) == Accumulate(files, open, angleOf)
  {
    AccumulateMeaning(files, open, angleOf);
    var k :| FirstFailure(files, angleOf, k) && files[k] == Accumulate(files, open, angleOf).error;
    assert forall j :: 0 <= j < |files| ==> (files + more)[j] == files[j];
    assert FirstFailure(files + more, angleOf, k);
    AccumulateStopsAtFirstFailure(files + more, open, angleOf, k);
  }

  /** Visiting file `n` after the first `n` files succeeded. */
  lemma AccumulateStep<I, L>(files: seq<string>, n: nat, open: string -> I, angleOf: string -> Option<L>, acc: Loaded<I, L>)
    requires n < |files|
    requires Accumulate(files[..n], open, angleOf) == Ok(acc)
    ensures angleOf(files[n]).None? ==> Accumulate(files, open, angleOf) == Err(files[n])
    ensures angleOf(files[n]).Some? ==>
      Accumulate(files[..n + 1], open, angleOf) ==
        Ok(Loaded(acc.images + [open(files[n])], acc.angles + [angleOf(files[n]).value]))
  {
    assert files[..n + 1][..n] == files[..n];
    if angleOf(files[n]).None? {
      AccumulateMeaning(files[..n], open, angleOf);
      assert forall j :: 0 <= j < n ==> files[..n][j] == files[j];
      assert FirstFailure(files, angleOf, n);
      AccumulateStopsAtFirstFailure(files, open, angleOf, n);
    }
  }

  /**
   * One of the three loops of `load_data_no_csv`: for every file in order,
   * append its image to `X`, then its angle to `y`. `visited` are the files
   * the earlier loops went through, and the lists arrive holding their result.
   */
  method AppendFiles<I, L>(ghost visited: seq<string>, images: seq<I>, angles: seq<L>, files: seq<string>,
                           open: string -> I, angleOf: string -> Option<L>)
    returns (r: Result<Loaded<I, L>, string>)
    requires Accumulate(visited, open, angleOf) == Ok(Loaded(images, angles))
    ensures r == Accumulate(visited + files, open, angleOf)
  {
    ghost var all := visited + files;
    var xs, ys := images, angles;
    for i := 0 to |files|
      invariant Accumulate(all[..|visited| + i], open, angleOf) == Ok(Loaded(xs, ys))
    {
      var file := files[i];
      assert all[|visited| + i] == file;
      AccumulateStep(all, |visited| + i, open, angleOf, Loaded(xs, ys));
      xs := xs + [open(file)];
      var angle := angleOf(file);
      if angle.None? {
        return Err(file);
      }
      ys := ys + [angle.value];
    }
    assert all[..|all|] == all;
    r := Ok(Loaded(xs, ys));
  }

  /**
   * `load_data_no_csv`, before the train/validation split: the Forward, then
   * the Left, then the Right files are visited, each appending its image to `X`
   * and its angle to `y`. The result is Accumulate over Forward ++ Left ++ Right,
   * so both lists have one entry per file and entry i of each comes from file i.
   */
  method LoadDataNoCsv<I, L>(center: seq<string>, left: seq<string>, right: seq<string>,
                             open: string -> I, angleOf: string -> Option<L>)
    returns (r: Result<Loaded<I, L>, string>)
    ensures r == Accumulate(center + left + right, open, angleOf)
    ensures r.Ok? ==> |r.value.images| == |r.value.angles| == |center| + |left| + |right|
  {
    r := AppendFiles([], [], [], center, open, angleOf);
    assert [] + center == center;
    if r.Ok? {
      r := AppendFiles(center, r.value.images, r.value.angles, left, open, angleOf);
      if r.Ok? {
        r := AppendFiles(center + left, r.value.images, r.value.angles, right, open, angleOf);
      } else {
        AccumulateErrSticky(center + left, right, open, angleOf);
      }
    } else {
      AccumulateErrSticky(center, left + right, open, angleOf);
      assert center + (left + right) == center + left + right;
    }
    AccumulateMeaning(center + left + right, open, angleOf);
  }

  /**
   * With the token as written, directory mode can never load a file that
   * `glob('*.png')` returns: the first file already fails, because its token
   * keeps the ".png" extension.
   */
  lemma DirectoryModeRejectsFirstPng<I, F>(files: seq<string>, open: string -> I, parse: string -> Option<F>)
    requires FloatSyntaxOnly(parse)
    requires files != [] && EndsWith(files[0], ".png")
    ensures Accumulate(files, open, p => ExtractSteeringAngle(p, parse)) == Err(files[0])
  {
    var angleOf := p => ExtractSteeringAngle(p, parse);
    PngTokenNeverParses(files[0], parse);
    assert FirstFailure(files, angleOf, 0);
    AccumulateStopsAtFirstFailure(files, open, angleOf, 0);
  }

  /**
   * With the corrected token, directory mode loads every file named
   * `<dir>/<stem>_<angle>.png` whose angle text parses: nothing fails, and
   * entry i of `y` is the value parsed from the angle text of file i.
   */
  lemma DirectoryModeLoadsWithCorrection<I, F>(files: seq<string>, dirs: seq<string>, stems: seq<string>,
                                               texts: seq<string>, open: string -> I, parse: string -> Option<F>)
    requires |dirs| == |files| && |stems| == |files| && |texts| == |files|
    requires forall i :: 0 <= i < |files| ==>
      && files[i] == PathJoin(dirs[i], stems[i] + "_" + texts[i] + ".png")
      && '/' !in stems[i] && '/' !in texts[i] && '_' !in texts[i]
      && parse(texts[i]).Some?
    ensures var r := Accumulate(files, open, p => CorrectedSteeringAngle(p, parse));
      && r.Ok? && |r.value.images| == |files| && |r.value.angles| == |files|
      && forall i :: 0 <= i < |files| ==>
           r.value.images[i] == open(files[i]) && Some(r.value.angles[i]) == parse(texts[i])
  {
    var angleOf := p => CorrectedSteeringAngle(p, parse);
    forall i | 0 <= i < |files|
      ensures angleOf(files[i]) == parse(texts[i])
    {
      CorrectedAngleReadsAngleText(dirs[i], stems[i], texts[i], parse);
    }
    AccumulateMeaning(files, open, angleOf);
  }
}
