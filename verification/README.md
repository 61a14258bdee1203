# Binary signal-vs-QCD evaluation: decision logic

This project models the pure decision logic of the binary ROC evaluation script
`plotters/auc_calc_binary_general.py` and proves properties about it. The script
scores jet-tagging predictions for a signal process against the QCD background.
Four pieces are modelled:

- **Dataset-type detection** (`BinaryType`). The names of the files in the output
  directory are tested for the substrings `WZ_vs_QCD`, `HToCC_vs_QCD` and
  `TTbar_vs_QCD`, in that priority order. The first match selects a configuration:
  the category name, the ordered signal processes, and the signal score column.
  No match, which includes an empty directory, is an error. Python's `in` test on
  strings is modelled by `Substrings.Contains`. It is proved equal to a reference
  definition: "the pattern occurs at some offset".
- **Input-file planning** (`InputFiles`). Each file read is `pred_{type}_{process}.root`
  inside the output directory, joined the way POSIX `os.path.join` joins paths.
  The combined process `WZ` reads the `WToQQ` file and then the `ZToQQ` file. Every
  other process reads its own file. The `QCD` background file is read last.
- **Loading and dataset assembly** (`Loading`, `Dataset`). A file's `Events` tree
  is a map from column name to real-valued scores. The file system is a map from
  path to tree, so a missing file or a missing column is an error value. These are
  the failures the main loop catches for each process. The discriminant of an event
  is pS/(pS+pB). For `WZ`, the discriminants of the two files are concatenated. The
  dataset is background followed by signal. Its labels are 0 on the background
  positions and 1 on the signal positions.
- **Rejection guards** (`Rejection`). At the target efficiency, `TargetTpr` = 0.5,
  the rejection is `Infinite` when the FPR there is exactly 0. Otherwise it is
  `Finite(1/fpr)`. A rejection-curve entry is `Undefined` (NaN) where the FPR is not
  positive, and `Value(1/fpr)` where it is. The interpolated FPR at the target is an
  input.

Scores are `real`. Files are modelled as values, and no I/O happens.

## Model

| member | source | states |
|---|---|---|
| Substrings.Contains | plotters/auc_calc_binary_general.py:12 | the `in` test on a file name is true exactly when the pattern occurs at some offset of the name |
| Substrings.AnyContains | plotters/auc_calc_binary_general.py:12 | `any(pattern in f for f in files)` is true exactly when some name in the listing contains the pattern |
| Substrings.SomeNameHasOnlyNamesMatter | plotters/auc_calc_binary_general.py:12 | whether some name contains a pattern depends only on which names are present |
| BinaryType.DetectBinaryType | plotters/auc_calc_binary_general.py:8-19 | a WZ name anywhere gives the WZ configuration; otherwise an HToCC name gives HToCC; otherwise a TTbar name gives TTbar (process `TTBar`, branch `score_label_Tbqq`); detection fails exactly when no name holds any of the three patterns |
| BinaryType.DetectedTypeIsWitnessed | plotters/auc_calc_binary_general.py:12-17 | a detected configuration is one of the three fixed ones, its category name occurs in some file name, and it lists at least one process |
| BinaryType.EmptyDirectoryFails | plotters/auc_calc_binary_general.py:18-19 | an empty directory listing raises the detection error |
| BinaryType.DetectionIgnoresOrder | plotters/auc_calc_binary_general.py:12-17 | two listings with the same names give the same result, whatever the order or repetition |
| BinaryType.DetectionIgnoresPermutation | plotters/auc_calc_binary_general.py:10-17 | permuting the directory listing does not change the detected configuration |
| BinaryType.WzWinsOverAnyOtherNames | plotters/auc_calc_binary_general.py:12-13 | a name containing `WZ_vs_QCD` anywhere in the listing selects WZ, whatever other names are present |
| BinaryType.HccWinsOverTtbar | plotters/auc_calc_binary_general.py:14-17 | without any WZ name, one HToCC name selects HToCC even when TTbar names are present |
| Evaluation.WzConfigListsPartsThenCombined | plotters/auc_calc_binary_general.py:13-36 | the detected WZ process list is the two parts that `WZ` expands to, followed by `WZ` itself |
| Evaluation.DetectedProcessesReadDistinctFiles | plotters/auc_calc_binary_general.py:12-56 | for every process of a detected configuration, the evaluation opens no file twice |
| InputFiles.JoinPath | plotters/auc_calc_binary_general.py:37 | an absolute name replaces the directory; a relative name yields a path that starts with the directory and ends with the name, with exactly one `/` between them when the directory is non-empty and does not already end in `/`, and nothing between them otherwise |
| InputFiles.JoinPathInjective | plotters/auc_calc_binary_general.py:56 | within one directory, different relative file names give different paths |
| InputFiles.ParseOfPredFileName | plotters/auc_calc_binary_general.py:46 | the process can be recovered from its `pred_{type}_{process}.root` name |
| InputFiles.ParsePredFileName | plotters/auc_calc_binary_general.py:46 | every name it accepts is exactly the `pred_{type}_{process}.root` name of the process it returns |
| InputFiles.PredFileNameInjective | plotters/auc_calc_binary_general.py:46 | distinct processes are read from distinct files |
| InputFiles.SignalParts | plotters/auc_calc_binary_general.py:33-36 | the expansion is never empty and never contains `WZ` itself; a process reads its own file exactly when it is not `WZ`; `QCD` is a signal part only when `QCD` itself is evaluated |
| InputFiles.SignalFiles | plotters/auc_calc_binary_general.py:33-46 | `WZ` reads exactly `pred_{type}_WToQQ.root` then `pred_{type}_ZToQQ.root`; any other process reads exactly `pred_{type}_{process}.root` |
| InputFiles.PlannedReadsDistinct | plotters/auc_calc_binary_general.py:33-56 | for any process not named `QCD`, no file is opened twice in one evaluation |
| InputFiles.SignalFilesDistinct | plotters/auc_calc_binary_general.py:36-37 | the signal files of one process are pairwise distinct, in particular the WToQQ and ZToQQ files |
| InputFiles.BackgroundNotASignalFile | plotters/auc_calc_binary_general.py:46-56 | for any process not named `QCD`, the background file is not among the signal files |
| InputFiles.CombinedReadsUnionOfParts | plotters/auc_calc_binary_general.py:36-37 | the files the WZ evaluation opens are exactly those opened by the WToQQ and ZToQQ evaluations together |
| Loading.Discriminant | plotters/auc_calc_binary_general.py:41 | the discriminant d satisfies d·(pS+pB) = pS, and it lies in [0, 1] when both scores are non-negative |
| Loading.Discriminants | plotters/auc_calc_binary_general.py:50 | elementwise discriminants: same length as the columns, and entry i solves d·(pS[i]+pB[i]) = pS[i] |
| Loading.ReadDiscriminants | plotters/auc_calc_binary_general.py:38-41 | a missing file, then a missing signal column, then a missing QCD column, each give their own error; with both columns present it succeeds exactly when they have equal lengths and no event's scores sum to zero; on success every entry is the discriminant of that event's two scores |
| Loading.ReadAll | plotters/auc_calc_binary_general.py:36-41 | files are read in order; success gives each file's discriminants at its position; failure reports the error of the first failing file, with every earlier file readable |
| Loading.Concat | plotters/auc_calc_binary_general.py:42 | the result has the total length of the parts, and each part appears intact, in order, starting right after the parts before it |
| Loading.ConcatTwo | plotters/auc_calc_binary_general.py:42 | concatenating two parts gives the first followed by the second, each intact |
| Dataset.Fill | plotters/auc_calc_binary_general.py:43 | `ones_like`/`zeros_like`: n entries, each equal to the given label |
| Dataset.Combine | plotters/auc_calc_binary_general.py:64-65 | the scores are bkg ++ sig, with labels of the same length, and label i is 0 exactly when i is below the background length |
| Dataset.CombineSplitsBack | plotters/auc_calc_binary_general.py:61-65 | taking the 0-labelled scores of the combined dataset gives back the background; taking the 1-labelled scores gives back the signal, in order |
| Dataset.SignalScores | plotters/auc_calc_binary_general.py:33-51 | the signal is available exactly when every signal file of the process is readable; otherwise the error is that of the first unreadable signal file |
| Dataset.CombinedSignalConcatenates | plotters/auc_calc_binary_general.py:33-43 | the WZ signal is available exactly when both part files are readable; it is the WToQQ discriminants followed by the ZToQQ ones (so its length is the sum and each part keeps its order) |
| Dataset.SingleSignalIsOneFile | plotters/auc_calc_binary_general.py:44-51 | for a non-WZ process the signal is exactly its one file's discriminants, or that file's error |
| Dataset.AssembleDataset | plotters/auc_calc_binary_general.py:33-65 | success exactly when every planned file is readable; a failure is the first failing file in read order (signal files, then QCD); on success the scores are the QCD discriminants followed by the signal, and label i is 0 exactly on the background positions |
| Dataset.AssembledSplitsBack | plotters/auc_calc_binary_general.py:43-65 | the assembled dataset's 0-labelled scores are the QCD file's discriminants and its 1-labelled scores are the signal discriminants |
| Dataset.CombinedMatchesParts | plotters/auc_calc_binary_general.py:33-65 | evaluating WZ succeeds exactly when evaluating WToQQ and evaluating ZToQQ both do; all three share the same background, and WZ's signal is WToQQ's followed by ZToQQ's |
| Rejection.RejectionAtTarget | plotters/auc_calc_binary_general.py:76-77 | given the FPR interpolated at `TargetTpr`, the rejection is `Infinite` exactly when that FPR is 0; otherwise it is finite and its product with the FPR is 1 |
| Rejection.CurveEntryAt | plotters/auc_calc_binary_general.py:72 | an entry is undefined exactly when fpr ≤ 0; otherwise it is a positive value whose product with fpr is 1 |
| Rejection.RejectionCurve | plotters/auc_calc_binary_general.py:72 | the curve has one entry per FPR value; entry i is undefined exactly when fpr[i] ≤ 0, and otherwise it is the reciprocal of fpr[i] |
| Rejection.CurveEntries | plotters/auc_calc_binary_general.py:72 | curve entry i is the guarded reciprocal of fpr[i] |
| Rejection.GuardsAgreeOnPositiveFpr | plotters/auc_calc_binary_general.py:72-77 | for a positive FPR both guards give the same 1/fpr; at FPR 0 the target gives `Infinite` and the curve gives undefined |
| Rejection.RejectionAtLeastOne | plotters/auc_calc_binary_general.py:72-77 | an FPR in (0, 1] gives a rejection of at least 1 |
| Rejection.RejectionAntitone | plotters/auc_calc_binary_general.py:72 | a smaller positive FPR gives a larger rejection |
| Rejection.CurveNonIncreasing | plotters/auc_calc_binary_general.py:69-72 | over non-decreasing ROC FPR values, once an entry is defined every later entry is defined and no larger |

## Left out

- Reading ROOT files with `uproot` (lines 38-40, 47-49, 57-59) is I/O. The files are the `Store` parameter instead.
- Listing the directory (line 10) and creating the plots directory (line 102) are I/O. Detection takes the listing as a parameter.
- `roc_auc_score`, `roc_curve` and `np.interp` (lines 68-69, 76) are foreign library routines. The AUC and the ROC curve are not re-derived. The interpolated FPR at the target is an input to `Rejection.RejectionAtTarget`, and the ROC curve's FPR values are an input to `Rejection.RejectionCurve`.
- Plotting, printing and saving the PNG (lines 6, 79-95, 106-108) are output only.
- The main loop's per-process exception capture and traceback printing (lines 111-119) are control flow around I/O failures. The failures themselves are modelled as `LoadError` results of `Dataset.AssembleDataset`.
- Loading.ReadDiscriminants: an event whose two scores sum to zero is reported as `ZeroDenominator`. numpy would store NaN or an infinity there and carry on. Floating-point NaN and infinity are not modelled, and scores are exact reals.
- Loading.ReadDiscriminants: columns of different lengths are reported as `ShapeMismatch`. numpy raises a broadcast error here, except that a length-1 column would be broadcast. Columns of one `Events` tree always have equal length.
- InputFiles.JoinPath models POSIX path joining only.
