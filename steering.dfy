/**
 * `extract_steering_angle` from model.py: the steering angle of a directory-mode
 * image is read from its file name, as the text after the last '_' of the
 * basename. Python's `float` is a parameter `parse` that may reject its input.
 */
module SteeringLabels {
  import opened Wrappers
  import opened PyStrings

  /**
   * The text handed to `float`: what follows the last '_' of the basename.
   * It can contain neither '_' nor '/', and it is an ending of the whole path.
   */
  function ExtractSteeringToken(path: string): (token: string)
    ensures '_' !in token && '/' !in token
    ensures EndsWith(path, token)
  {
    AfterLast(Basename(path), '_')
  }

  /** The token is exactly Python's `os.path.basename(path).split('_')[-1]`. */
  lemma TokenIsLastSplitPiece(path: string)
    ensures var parts := Split(Basename(path), '_'); ExtractSteeringToken(path) == parts[|parts| - 1]
  {
    LastOfSplit(Basename(path), '_');
  }

  /** `extract_steering_angle(path)`: `None` stands for the ValueError that `float` raises. */
  function ExtractSteeringAngle<F>(path: string, parse: string -> Option<F>): Option<F> {
    parse(ExtractSteeringToken(path))
  }

  /**
   * The token is the last '_'-segment of the basename: the whole basename when
   * it has no '_', and otherwise the text that directly follows its last '_'.
   */
  lemma TokenIsLastSegmentOfBasename(path: string)
    ensures IsLastSegment(Basename(path), '_', ExtractSteeringToken(path))
    ensures '_' !in Basename(path) ==> ExtractSteeringToken(path) == Basename(path)
  {
    var name := Basename(path);
    if '_' !in name {
      AfterLastWhole(name, '_');
    }
  }

  /** Only the file name matters: the directory, underscores in it included, never reaches the token. */
  lemma TokenIgnoresDirectory(dir: string, name: string)
    requires '/' !in name
    ensures ExtractSteeringToken(PathJoin(dir, name)) == ExtractSteeringToken(name)
  {
    BasenameOfJoin(dir, name);
    AfterLastWhole(name, '/');
  }

  /** Any ending free of '/' and '_' that follows the last '_' of the file name stays in the token. */
  lemma TokenKeepsEnding(dir: string, stem: string, angle: string, ext: string)
    requires '/' !in stem && '/' !in angle && '_' !in angle && '/' !in ext && '_' !in ext
    ensures ExtractSteeringToken(PathJoin(dir, stem + ['_'] + (angle + ext))) == angle + ext
  {
    var tail := angle + ext;
    var name := stem + ['_'] + tail;
    assert Basename(PathJoin(dir, name)) == name by {
      assert '/' !in name;
      BasenameOfJoin(dir, name);
    }
    AfterLastAfterSep(stem, tail, '_');
  }

  /**
   * As written, the extension is not stripped: for the documented file layout
   * `<dir>/<stem>_<angle>.png` the token is `<angle>.png`, not `<angle>`.
   */
  lemma TokenKeepsExtension(dir: string, stem: string, angle: string)
    requires '/' !in stem && '/' !in angle && '_' !in angle
    ensures ExtractSteeringToken(PathJoin(dir, stem + "_" + angle + ".png")) == angle + ".png"
  {
    var ext := ".png";
    assert '/' !in ext && '_' !in ext;
    assert stem + "_" + angle + ext == stem + ['_'] + (angle + ext);
    TokenKeepsEnding(dir, stem, angle, ext);
  }

  /** The file `data/Forward/img_0.3.png` gives the token "0.3.png". */
  lemma TokenKeepsExtensionExample()
    ensures ExtractSteeringToken("data/Forward/img_0.3.png") == "0.3.png"
  {
    assert PathJoin("data/Forward", "img" + "_" + "0.3" + ".png") == "data/Forward/img_0.3.png";
    TokenKeepsExtension("data/Forward", "img", "0.3");
  }

  predicate IsAsciiLetter(ch: char) {
    'a' <= ch <= 'z' || 'A' <= ch <= 'Z'
  }

  /**
   * The only ASCII letters that can occur in text Python's `float` accepts are
   * those of an exponent marker and of "inf", "infinity" and "nan", in either case.
   */
  predicate FloatChar(ch: char) {
    var lower := if 'A' <= ch <= 'Z' then (ch as int + 32) as char else ch;
    !IsAsciiLetter(ch) ||
    lower == 'e' || lower == 'i' || lower == 'n' || lower == 'f' || lower == 'a' || lower == 't' || lower == 'y'
  }

  /** Every character of `s` can occur in a Python float literal. */
  predicate FloatAlphabet(s: string) {
    forall i :: 0 <= i < |s| ==> FloatChar(s[i])
  }

  /** `parse` accepts nothing that Python's `float` would reject on its letters alone. */
  ghost predicate FloatSyntaxOnly<F>(parse: string -> Option<F>) {
    forall s :: parse(s).Some? ==> FloatAlphabet(s)
  }

  /** An ending of the path free of '/' and '_' is also an ending of the token. */
  lemma TokenKeepsPathEnding(path: string, ext: string)
    requires EndsWith(path, ext) && '/' !in ext && '_' !in ext
    ensures EndsWith(ExtractSteeringToken(path), ext)
  {
    AfterLastKeepsTail(path, ext, '/');
    AfterLastKeepsTail(Basename(path), ext, '_');
  }

  /** Text that ends in a non-float ending is not float text either. */
  lemma ForeignEnding(s: string, ext: string)
    requires EndsWith(s, ext) && !FloatAlphabet(ext)
    ensures !FloatAlphabet(s)
  {
    var i :| 0 <= i < |ext| && !FloatChar(ext[i]);
    assert s[|s| - |ext| + i] == ext[i];
  }

  /** ".png" has no '/' or '_', and its 'p' and 'g' occur in no float literal. */
  lemma PngExtension()
    ensures '/' !in ".png" && '_' !in ".png" && !FloatAlphabet(".png")
  {
    assert !FloatChar(".png"[1]);
  }

  /** The token of a ".png" file holds a letter that no float literal has: the 'p' of the extension. */
  lemma PngTokenOutsideFloatAlphabet(path: string)
    requires EndsWith(path, ".png")
    ensures !FloatAlphabet(ExtractSteeringToken(path))
  {
    PngExtension();
    TokenKeepsPathEnding(path, ".png");
    ForeignEnding(ExtractSteeringToken(path), ".png");
  }

  /** Every path ending in ".png" gives a token that `float` rejects, however the angle is written. */
  lemma PngTokenNeverParses<F>(path: string, parse: string -> Option<F>)
    requires FloatSyntaxOnly(parse)
    requires EndsWith(path, ".png")
    ensures ExtractSteeringAngle(path, parse) == None
  {
    PngTokenOutsideFloatAlphabet(path);
  }

  // ---------------------------------------------------------------------------
  // The evidently intended token: the extension removed before splitting
  // ---------------------------------------------------------------------------

  /** The basename without its ".png" extension, then the text after its last '_'. */
  function CorrectedSteeringToken(path: string): (token: string)
    ensures '_' !in token && '/' !in token
    ensures EndsWith(path, token) || EndsWith(path, token + ".png")
  {
    var name := Basename(path);
    var stem := if EndsWith(name, ".png") then name[..|name| - 4] else name;
    var token := AfterLast(stem, '_');
    assert EndsWith(path, token) || EndsWith(path, token + ".png") by {
      if EndsWith(name, ".png") {
        assert name == stem + ".png";
        EndsWithAppend(stem, token, ".png");
        EndsWithTrans(path, name, token + ".png");
      } else {
        EndsWithTrans(path, name, token);
      }
    }
    token
  }

  /** The corrected `extract_steering_angle`. */
  function CorrectedSteeringAngle<F>(path: string, parse: string -> Option<F>): Option<F> {
    parse(CorrectedSteeringToken(path))
  }

  /** For `<dir>/<stem>_<angle>.png` the corrected token is exactly `<angle>`. */
  lemma CorrectedTokenIsAngleText(dir: string, stem: string, angle: string)
    requires '/' !in stem && '/' !in angle && '_' !in angle
    ensures CorrectedSteeringToken(PathJoin(dir, stem + "_" + angle + ".png")) == angle
  {
    var name := stem + "_" + angle + ".png";
    BasenameOfJoin(dir, name);
    var s := stem + ['_'] + angle;
    assert name[..|name| - 4] == s;
    AfterLastAfterSep(stem, angle, '_');
  }

  /** With the correction, `<dir>/<stem>_<angle>.png` is labelled with whatever `float` makes of `<angle>`. */
  lemma CorrectedAngleReadsAngleText<F>(dir: string, stem: string, angle: string, parse: string -> Option<F>)
    requires '/' !in stem && '/' !in angle && '_' !in angle
    ensures CorrectedSteeringAngle(PathJoin(dir, stem + "_" + angle + ".png"), parse) == parse(angle)
  {
    CorrectedTokenIsAngleText(dir, stem, angle);
  }
}
