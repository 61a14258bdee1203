/**
 Assembly of the binary dataset handed to the ROC routines: background
 discriminants first, then signal discriminants. Every background entry is
 labelled 0 and every signal entry 1. Labels come from the file an entry was
 read from, never from its score.
 */
module Dataset {
  import opened Results
  import opened InputFiles
  import opened Loading

  /** A class label: 0 for background, 1 for signal. */
  type Label = l: int | 0 <= l <= 1

  const BackgroundLabel: Label := 0
  const SignalLabel: Label := 1

  /** Scores and their labels, position by position. */
  datatype Dataset = Dataset(scores: seq<real>, labels: seq<Label>)

  /** `n` copies of one label, as `np.zeros_like` / `np.ones_like` produce. */
  function Fill(n: nat, l: Label): (r: seq<Label>)
    ensures |r| == n
    ensures forall i :: 0 <= i < n ==> r[i] == l
  {
    if n == 0 then [] else [l] + Fill(n - 1, l)
  }

  /** Background followed by signal, with matching labels. */
  function Combine(bkg: seq<real>, sig: seq<real>): (d: Dataset)
    ensures d.scores == bkg + sig
    ensures |d.labels| == |d.scores|
    ensures forall i :: 0 <= i < |d.labels| ==> (d.labels[i] == BackgroundLabel <==> i < |bkg|)
  {
    Dataset(bkg + sig, Fill(|bkg|, BackgroundLabel) + Fill(|sig|, SignalLabel))
  }

  /** The scores whose label is `l`, in their original order. */
  function Select(scores: seq<real>, labels: seq<Label>, l: Label): seq<real>
    requires |scores| == |labels|
  {
    if |scores| == 0 then []
    else (if labels[0] == l then [scores[0]] else []) + Select(scores[1..], labels[1..], l)
  }

  /** Selecting from a concatenation selects from each half. */
  lemma {:induction false} SelectAppend(a: seq<real>, la: seq<Label>, b: seq<real>, lb: seq<Label>, l: Label)
    requires |a| == |la| && |b| == |lb|
    ensures Select(a + b, la + lb, l) == Select(a, la, l) + Select(b, lb, l)
    decreases |a|
  {
    if |a| == 0 {
      assert a + b == b && la + lb == lb;
    } else {
      var ab, lab := a + b, la + lb;
      var head := if la[0] == l then [a[0]] else [];
      assert ab[0] == a[0] && lab[0] == la[0];
      assert ab[1..] == a[1..] + b;
      assert lab[1..] == la[1..] + lb;
      assert Select(ab, lab, l) == head + Select(ab[1..], lab[1..], l);
      assert Select(a, la, l) == head + Select(a[1..], la[1..], l);
      SelectAppend(a[1..], la[1..], b, lb, l);
      assert Select(ab, lab, l) == head + (Select(a[1..], la[1..], l) + Select(b, lb, l));
    }
  }

  /** Selecting the label every entry carries keeps everything; any other label keeps nothing. */
  lemma {:induction false} SelectFill(a: seq<real>, fill: Label, l: Label)
    ensures Select(a, Fill(|a|, fill), l) == if fill == l then a else []
    decreases |a|
  {
    if |a| > 0 {
      assert Fill(|a|, fill)[1..] == Fill(|a| - 1, fill);
      SelectFill(a[1..], fill, l);
    }
  }

  /** Splitting a combined dataset by label gives back background and signal. */
  lemma CombineSplitsBack(bkg: seq<real>, sig: seq<real>)
    ensures var d := Combine(bkg, sig);
            Select(d.scores, d.labels, BackgroundLabel) == bkg
            && Select(d.scores, d.labels, SignalLabel) == sig
  {
    SelectAppend(bkg, Fill(|bkg|, BackgroundLabel), sig, Fill(|sig|, SignalLabel), BackgroundLabel);
    SelectAppend(bkg, Fill(|bkg|, BackgroundLabel), sig, Fill(|sig|, SignalLabel), SignalLabel);
    SelectFill(bkg, BackgroundLabel, BackgroundLabel);
    SelectFill(sig, SignalLabel, BackgroundLabel);
    SelectFill(bkg, BackgroundLabel, SignalLabel);
    SelectFill(sig, SignalLabel, SignalLabel);
  }

  /** The signal discriminants read from `files` in order and concatenated. */
  function ReadSignal(store: Store, files: seq<string>, branch: string): (r: Result<seq<real>, LoadError>)
    ensures r.Success? <==> forall i :: 0 <= i < |files| ==> ReadDiscriminants(store, files[i], branch).Success?
    ensures r.Failure? ==>
              exists k :: 0 <= k < |files|
                && ReadDiscriminants(store, files[k], branch) == Failure(r.error)
                && forall j :: 0 <= j < k ==> ReadDiscriminants(store, files[j], branch).Success?
  {
    match ReadAll(store, files, branch)
    case Failure(e) => Failure(e)
    case Success(parts) => Success(Concat(parts))
  }

  /** The signal discriminants of `process`: its signal files read in order and concatenated. */
  function SignalScores(store: Store, dir: string, binaryType: string, process: string, branch: string)
    : (r: Result<seq<real>, LoadError>)
    ensures r.Success? <==>
              forall i :: 0 <= i < |SignalFiles(dir, binaryType, process)| ==>
                ReadDiscriminants(store, SignalFiles(dir, binaryType, process)[i], branch).Success?
    ensures var files := SignalFiles(dir, binaryType, process);
            r.Failure? ==>
              exists k :: 0 <= k < |files|
                && ReadDiscriminants(store, files[k], branch) == Failure(r.error)
                && forall j :: 0 <= j < k ==> ReadDiscriminants(store, files[j], branch).Success?
  {
    ReadSignal(store, SignalFiles(dir, binaryType, process), branch)
  }

  /** For the combined process the signal is the WToQQ discriminants followed
      by the ZToQQ discriminants; for any other process it is its one file. */
  lemma CombinedSignalConcatenates(store: Store, dir: string, binaryType: string, branch: string)
    ensures var w := ReadDiscriminants(store, JoinPath(dir, PredFileName(binaryType, "WToQQ")), branch);
            var z := ReadDiscriminants(store, JoinPath(dir, PredFileName(binaryType, "ZToQQ")), branch);
            var s := SignalScores(store, dir, binaryType, CombinedProcess, branch);
            && (s.Success? <==> w.Success? && z.Success?)
            && (s.Success? ==> s.value == w.value + z.value)
  {
    var files := SignalFiles(dir, binaryType, CombinedProcess);
    var r := ReadAll(store, files, branch);
    if r.Success? {
      ConcatTwo(r.value[0], r.value[1]);
      assert r.value == [r.value[0], r.value[1]];
    }
  }

  /** A single-file process's signal is exactly that file's discriminants. */
  lemma SingleSignalIsOneFile(store: Store, dir: string, binaryType: string, process: string, branch: string)
    requires process != CombinedProcess
    ensures SignalScores(store, dir, binaryType, process, branch)
            == ReadDiscriminants(store, JoinPath(dir, PredFileName(binaryType, process)), branch)
  {
    var files := SignalFiles(dir, binaryType, process);
    var r := ReadAll(store, files, branch);
    if r.Success? {
      assert r.value == [r.value[0]];
      assert r.value[1..] == [];
      assert Concat(r.value) == r.value[0];
    }
  }

  /** Builds the labelled dataset from the signal `files` and the background
      file `bgFile`, reading the signal files first and reporting the first failure. */
  function Assemble(store: Store, files: seq<string>, bgFile: string, branch: string)
    : (r: Result<Dataset, LoadError>)
    ensures var plan := files + [bgFile];
            r.Success? <==> forall i :: 0 <= i < |plan| ==> ReadDiscriminants(store, plan[i], branch).Success?
    ensures var plan := files + [bgFile];
            r.Failure? ==>
              exists k :: 0 <= k < |plan|
                && ReadDiscriminants(store, plan[k], branch) == Failure(r.error)
                && forall j :: 0 <= j < k ==> ReadDiscriminants(store, plan[j], branch).Success?
    ensures r.Success? ==>
              ReadSignal(store, files, branch).Success? && ReadDiscriminants(store, bgFile, branch).Success?
    ensures r.Success? ==>
              var bkg := ReadDiscriminants(store, bgFile, branch).value;
              var sig := ReadSignal(store, files, branch).value;
              && |r.value.scores| == |r.value.labels| == |bkg| + |sig|
              && r.value.scores[..|bkg|] == bkg
              && r.value.scores[|bkg|..] == sig
              && forall i :: 0 <= i < |r.value.labels| ==>
                   (r.value.labels[i] == BackgroundLabel <==> i < |bkg|)
  {
    var plan := files + [bgFile];
    assert forall i :: 0 <= i < |files| ==> plan[i] == files[i];
    match ReadSignal(store, files, branch)
    case Failure(e) => Failure(e)
    case Success(sig) =>
      match ReadDiscriminants(store, bgFile, branch)
      case Failure(e) =>
        assert plan[|files|] == bgFile;
        Failure(e)
      case Success(bkg) =>
        var d := Combine(bkg, sig);
        assert d.scores[..|bkg|] == bkg && d.scores[|bkg|..] == sig;
        Success(d)
  }

  /** Builds the labelled dataset for one process: the signal files are read
      first, then the QCD file, and the first failure is reported. */
  function AssembleDataset(store: Store, dir: string, binaryType: string, process: string, branch: string)
    : (r: Result<Dataset, LoadError>)
    ensures var plan := PlannedReads(dir, binaryType, process);
            r.Success? <==> forall i :: 0 <= i < |plan| ==> ReadDiscriminants(store, plan[i], branch).Success?
    ensures var plan := PlannedReads(dir, binaryType, process);
            r.Failure? ==>
              exists k :: 0 <= k < |plan|
                && ReadDiscriminants(store, plan[k], branch) == Failure(r.error)
                && forall j :: 0 <= j < k ==> ReadDiscriminants(store, plan[j], branch).Success?
    ensures r.Success? ==>
              var bkg := ReadDiscriminants(store, BackgroundFile(dir, binaryType), branch).value;
              var sig := SignalScores(store, dir, binaryType, process, branch).value;
              && |r.value.scores| == |r.value.labels| == |bkg| + |sig|
              && r.value.scores[..|bkg|] == bkg
              && r.value.scores[|bkg|..] == sig
              && forall i :: 0 <= i < |r.value.labels| ==>
                   (r.value.labels[i] == BackgroundLabel <==> i < |bkg|)
  {
    var files := SignalFiles(dir, binaryType, process);
    var bgFile := BackgroundFile(dir, binaryType);
    assert PlannedReads(dir, binaryType, process) == files + [bgFile];
    Assemble(store, files, bgFile, branch)
  }

  /** The assembled dataset's background-labelled scores are the QCD file's
      discriminants and its signal-labelled scores are the signal discriminants. */
  lemma AssembledSplitsBack(store: Store, dir: string, binaryType: string, process: string, branch: string)
    requires AssembleDataset(store, dir, binaryType, process, branch).Success?
    ensures var d := AssembleDataset(store, dir, binaryType, process, branch).value;
            && Select(d.scores, d.labels, BackgroundLabel)
               == ReadDiscriminants(store, BackgroundFile(dir, binaryType), branch).value
            && Select(d.scores, d.labels, SignalLabel)
               == SignalScores(store, dir, binaryType, process, branch).value
  {
    var bkg := ReadDiscriminants(store, BackgroundFile(dir, binaryType), branch).value;
    var sig := SignalScores(store, dir, binaryType, process, branch).value;
    CombineSplitsBack(bkg, sig);
  }

  /** Evaluating WZ succeeds exactly when evaluating WToQQ and ZToQQ both do,
      and its signal part is their signal parts back to back over the same background. */
  lemma CombinedMatchesParts(store: Store, dir: string, binaryType: string, branch: string)
    ensures var wz := AssembleDataset(store, dir, binaryType, CombinedProcess, branch);
            var w := AssembleDataset(store, dir, binaryType, "WToQQ", branch);
            var z := AssembleDataset(store, dir, binaryType, "ZToQQ", branch);
            && (wz.Success? <==> w.Success? && z.Success?)
            && (wz.Success? ==>
                  var nb := |ReadDiscriminants(store, BackgroundFile(dir, binaryType), branch).value|;
                  && wz.value.scores[..nb] == w.value.scores[..nb] == z.value.scores[..nb]
                  && wz.value.scores[nb..] == w.value.scores[nb..] + z.value.scores[nb..])
  {
  }
}
