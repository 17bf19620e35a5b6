# Behavioural-cloning trainer: data loading and label extraction

This project models the non-neural core of `model.py`, the training script of a
behavioural-cloning project. The script takes camera frames of a driving
simulator and trains a Keras network to predict the steering angle. The model
covers what the script does before and around training:

- **Load dispatch** (`load_data`). If `<data_dir>/driving_log.csv` exists, the
  script loads a CSV index. Otherwise it loads three image sub-directories:
  `Forward` (centre camera), `Left` and `Right`.
- **Directory mode** (`load_data_no_csv`). The script globs `*.png` in each
  sub-directory. It then runs three loops that open each image and append it
  to `X`, and append the steering angle read from the file name to `y`.
- **Label extraction** (`extract_steering_angle`). It takes the basename of
  the path and the last `_`-separated piece of it, and passes that piece to
  `float`.
- **Boolean flags** (`s2b`). The string is lower-cased, and the flag is true
  exactly when the result is `true`, `yes`, `y` or `1`.
- **Step counts** (`train_model`). `steps_per_epoch` and `validation_steps`
  are `len(...) // batch_size`, which is Python floor division.

The Dafny modules follow that structure:

- `Wrappers` holds `Option` and `Result`.
- `PyStrings` models the Python string and path operations the script relies
  on: `str.split`, `str.lower` (ASCII), `os.path.basename` and
  `os.path.join` (POSIX).
- `Flags` models `s2b`.
- `SteeringLabels` models `extract_steering_angle`, plus a corrected variant
  (see Findings).
- `DataLoading` models `load_data` and `load_data_no_csv`. The loops are an
  imperative method proved against the reference function `Accumulate`.
- `Training` models the step-count arithmetic.

The external effects are parameters of the model:

- `os.path.exists` is a predicate `fileExists`.
- `glob.glob` results are the three input file lists.
- `Image.open` is a function `open` from a path to an image.
- `float` is a partial parser `parse: string -> Option<F>`. `None` stands for
  the `ValueError` Python raises.

The loader is stated for any label function `angleOf`. So everything proved
about it holds both for the label extraction as written and for the corrected
one.

## Model

| member | source | states |
|---|---|---|
| PyStrings.SplitJoin | model.py:103 | joining the pieces of `str.split(sep)` with `sep` gives back the original string |
| PyStrings.SplitPiecesFree | model.py:103 | no piece produced by `split('_')` contains `_` |
| PyStrings.SplitCount | model.py:103 | `split` returns one more piece than the string has separators, so `[-1]` always exists |
| PyStrings.AfterLast | model.py:103 | the text after the last separator is a suffix of the string, contains no separator, and is preceded by a separator or is the whole string |
| PyStrings.LastSegmentUnique | model.py:103 | exactly one string satisfies that description, so it pins down `split(sep)[-1]` |
| PyStrings.LastOfSplit | model.py:103 | `s.split(sep)[-1]` is the text after the last separator of `s` |
| PyStrings.AfterLastWhole | model.py:103 | a string without the separator is its own last piece |
| PyStrings.AfterLastAfterSep | model.py:103 | the last piece of `x + sep + n`, where `n` has no separator, is `n` |
| PyStrings.AfterLastKeepsTail | model.py:103 | a separator-free ending of the string is also an ending of its last piece |
| PyStrings.BasenameOfJoin | model.py:64-66 | `os.path.basename(os.path.join(d, name))` is `name` whenever `name` has no `/` |
| PyStrings.LowerIdempotent | model.py:163 | lower-casing leaves no capital letter, and lower-casing twice equals lower-casing once |
| PyStrings.LowerKeepsNonCapitals | model.py:163 | lower-casing changes only the capital letters |
| Flags.S2bSpellings | model.py:159-164 | `s2b(s)` is true exactly for the 27 case variants of `true`, `yes`, `y` and `1`, both directions |
| Flags.S2bCaseInsensitive | model.py:163 | `s2b` gives the same answer for a string and its lower-case form |
| Flags.S2bExamples | model.py:163-164 | `s2b` accepts `true`, `TRUE`, `Yes`, `Y`, `1` and rejects ``, `no`, `false`, `0`, `t` |
| SteeringLabels.ExtractSteeringToken | model.py:102-103 | the text handed to `float` has no `_` and no `/`, and it is an ending of the path |
| SteeringLabels.TokenIsLastSplitPiece | model.py:102-103 | that text is exactly `basename(path).split('_')[-1]` |
| SteeringLabels.TokenIsLastSegmentOfBasename | model.py:102-103 | the token is the part of the basename after its last `_`, or the whole basename if it has none |
| SteeringLabels.TokenIgnoresDirectory | model.py:102 | the token depends only on the file name, not on the directory it is joined to |
| SteeringLabels.TokenKeepsEnding | model.py:102-103 | for `dir/stem_angle<ext>` with no `_` or `/` in `angle<ext>`, the token is `angle<ext>` |
| SteeringLabels.TokenKeepsExtension | model.py:102-104 | for `dir/stem_angle.png` the token given to `float` is `angle.png`, extension included |
| SteeringLabels.TokenKeepsExtensionExample | model.py:102-104 | `data/Forward/img_0.3.png` yields the token `0.3.png` |
| SteeringLabels.TokenKeepsPathEnding | model.py:102-103 | an ending of the path with no `_` or `/` is also an ending of the token |
| SteeringLabels.ForeignEnding | model.py:104 | a string ending in text outside the `float` alphabet is itself outside it |
| SteeringLabels.PngExtension | model.py:64-66 | `.png` has no `_` or `/`, and it holds letters that `float` never accepts |
| SteeringLabels.PngTokenOutsideFloatAlphabet | model.py:102-104 | the token of any path ending in `.png` has characters `float` rejects |
| SteeringLabels.PngTokenNeverParses | model.py:102-104 | for any parser that accepts only `float` syntax, the label of a `.png` path is the error case |
| SteeringLabels.CorrectedSteeringToken | model.py:102-103 | the corrected token has no `_` or `/`, and it is an ending of the path or of the path without `.png` |
| SteeringLabels.CorrectedTokenIsAngleText | model.py:102-103 | for `dir/stem_angle.png` the corrected token is exactly `angle` |
| SteeringLabels.CorrectedAngleReadsAngleText | model.py:102-104 | the corrected label of `dir/stem_angle.png` is `float(angle)` |
| DataLoading.LoadData | model.py:38-43 | the CSV source is chosen if and only if `<data_dir>/driving_log.csv` exists; otherwise the three `*.png` patterns under `Forward`, `Left` and `Right` are used |
| DataLoading.PatternBasename | model.py:64-66 | every glob pattern ends in the file name `*.png` |
| DataLoading.AccumulateMeaning | model.py:68-87 | loading succeeds iff every file has a label; then `X` and `y` are as long as the file list, `X[i]` is the image of file `i` and `y[i]` is its label; on failure the error names a file whose label fails, with every earlier file labelled |
| DataLoading.AccumulateStopsAtFirstFailure | model.py:71-87 | loading stops at, and reports, the first file whose label fails |
| DataLoading.AccumulateErrSticky | model.py:71-87 | once loading fails, later files do not change the outcome |
| DataLoading.AccumulateStep | model.py:71-75 | one loop iteration extends a successful load by that file's image and label, or fails with that file |
| DataLoading.AppendFiles | model.py:71-75 | one loop over a file list continues the load of the files before it, giving the same result as loading the concatenation |
| DataLoading.LoadDataNoCsv | model.py:60-90 | the three loops load the concatenation `Forward ++ Left ++ Right` in order; on success `len(X) == len(y)` equals the total number of files |
| DataLoading.DirectoryModeRejectsFirstPng | model.py:64-104 | with the label extraction as written, directory mode over a non-empty list of `.png` files fails at the first file |
| DataLoading.DirectoryModeLoadsWithCorrection | model.py:64-104 | with the corrected label extraction, directory mode over files named `dir/stem_angle.png` whose angle text parses succeeds, and `y[i]` is the value parsed from the angle text of file `i` |
| Training.FloorDiv | model.py:147 | Python `//`: for a positive divisor the quotient is the largest `q` with `q*b <= a`, and for a negative divisor the mirror image |
| Training.StepsPerEpochBounds | model.py:147-154 | for a positive batch size, the step count is the number of whole batches: `steps*b <= n < (steps+1)*b`, and it is zero iff `n < b` |
| Training.StepsAreWholeBatches | model.py:147 | the step count equals the batches counted one at a time by repeated subtraction |
| Training.FloorDivUnique | model.py:147 | any `q` with `q*b <= a < q*b + b` is the floor quotient |
| Training.NegativeBatchSizeExample | model.py:147 | with a negative batch size, Python's `//` rounds toward minus infinity: `10 // -3 == -4` |
| Training.FitSteps | model.py:141-154 | a zero batch size is the `ZeroDivisionError` case; for a positive one, both step counts are the whole batches in the training and validation sets |
| Training.FitStepsExample | model.py:147-154 | 8000 training and 2000 validation samples at batch size 40 give 200 and 50 steps; 39 samples give 0 steps |

## Left out

- `load_data_csv` (model.py:46-57): reading the CSV with pandas and selecting its columns is left out. The model only records which index file would be read.
- `train_test_split` (model.py:55, 92): the randomised split is left out. `LoadDataNoCsv` returns `X` and `y` as they are before the split.
- `np.array` (model.py:89-90): the conversion to arrays does not change contents or order, so the model keeps sequences.
- `build_model`, `model.compile`, `model.fit_generator` and `ModelCheckpoint` (model.py:107-156): the network, optimiser, training loop and checkpoint policy are numeric library code. Only the two step counts are modelled.
- `batch_generator` and `INPUT_SHAPE` come from `utils.py`, which is not part of this model.
- `glob.glob`, `Image.open` and `os.path.exists` are parameters. The order in which `glob` lists files is not modelled: the lists are taken as given.
- `Image.open` failures (unreadable files) are not modelled. `open` is total.
- `float` is a parameter, not a parser. `FloatSyntaxOnly` states only a necessary condition: a parse succeeds only on text whose ASCII letters could belong to a number, an exponent, `inf`, `infinity` or `nan`.
- `PyStrings.Lower`: only `A`-`Z` are lower-cased. Python's `str.lower` also lowers non-ASCII letters. The only non-ASCII characters whose lower case contains an ASCII letter are KELVIN SIGN (to `k`) and capital I with dot above (to `i` plus a combining dot). Neither can produce `true`, `yes`, `y` or `1`, so `s2b` is unaffected.
- `os.path.join` and `os.path.basename` follow the POSIX rules. Windows path separators are not modelled.
- `np.random.seed`, `argparse`, the parameter printing and `main` (model.py:32, 167-199) are left out. `s2b` is modelled as the converter it is. The parsed `save_best_only` flag and `samples_per_epoch` are never read by the code: `train_model` hardcodes `save_best_only=True`.
- `Training.FitSteps`: what Keras does with a zero or negative step count is not modelled. Only the arithmetic is.
- A missing `Forward`, `Left` or `Right` directory raises no error in the code. `glob` returns an empty list, and the model treats that as an empty input list. A bad label surfaces as Python's `ValueError` at the first failing file, modelled as `Err(file)`.

## Findings

| source | as written | input that shows it | evidently intended | confidence | as-written member | corrected member |
|---|---|---|---|---|---|---|
| model.py:103-104 | `file_name.split('_')[-1]` keeps the extension. Directory mode only ever globs `*.png` files (model.py:64-66), so `float` always gets text ending in `.png`, raises `ValueError`, and directory mode fails on its first file | `data/Forward/img_0.3.png` gives the token `0.3.png`, which `float` rejects | strip the extension before splitting, so the token is `0.3` | high, not executed | DataLoading.DirectoryModeRejectsFirstPng | DataLoading.DirectoryModeLoadsWithCorrection |
