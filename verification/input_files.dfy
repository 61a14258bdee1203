/**
 Which prediction files one evaluation reads. Every file is named
 `pred_{binaryType}_{process}.root` inside the output directory. The combined
 process `WZ` has no file of its own: it reads the `WToQQ` and then the
 `ZToQQ` file. The QCD background file is always read last.
 */
module InputFiles {
  import opened Results

  const CombinedProcess: string := "WZ"
  const CombinedParts: seq<string> := ["WToQQ", "ZToQQ"]
  const BackgroundProcess: string := "QCD"

  const FilePrefix: string := "pred_"
  const FileSuffix: string := ".root"

  /** POSIX `os.path.join(dir, name)`: an absolute `name` replaces `dir`;
      otherwise a separator is inserted unless `dir` is empty or already ends in one. */
  function JoinPath(dir: string, name: string): (p: string)
    ensures (|name| > 0 && name[0] == '/') ==> p == name
    ensures (|name| == 0 || name[0] != '/') ==>
              && |dir| + |name| <= |p| <= |dir| + |name| + 1
              && p[..|dir|] == dir
              && p[|p| - |name|..] == name
              && (|p| == |dir| + |name| + 1 <==> (|dir| > 0 && dir[|dir| - 1] != '/'))
              && (|p| == |dir| + |name| + 1 ==> p[|dir|] == '/')
  {
    if |name| > 0 && name[0] == '/' then name
    else if |dir| == 0 || dir[|dir| - 1] == '/' then dir + name
    else dir + "/" + name
  }

  /** Joining one directory with two relative names gives equal paths only for equal names. */
  lemma JoinPathInjective(dir: string, a: string, b: string)
    requires |a| > 0 && a[0] != '/' && |b| > 0 && b[0] != '/'
    requires JoinPath(dir, a) == JoinPath(dir, b)
    ensures a == b
  {
    var gap := if |dir| > 0 && dir[|dir| - 1] != '/' then 1 else 0;
    assert |JoinPath(dir, a)| == |dir| + gap + |a|;
    assert |JoinPath(dir, b)| == |dir| + gap + |b|;
    assert a == JoinPath(dir, a)[|dir| + gap..];
    assert b == JoinPath(dir, b)[|dir| + gap..];
  }

  /** The name of the prediction file for one process. */
  function PredFileName(binaryType: string, process: string): string {
    FilePrefix + binaryType + "_" + process + FileSuffix
  }

  /** Inverse of `PredFileName` for a known category: recovers the process
      from a file name, or `None` when the name does not have that shape. */
  function ParsePredFileName(binaryType: string, name: string): (r: Option<string>)
    ensures r.Some? ==> PredFileName(binaryType, r.value) == name
  {
    var head := FilePrefix + binaryType + "_";
    if |name| >= |head| + |FileSuffix|
       && name[..|head|] == head
       && name[|name| - |FileSuffix|..] == FileSuffix
    then
      var mid := name[|head|..|name| - |FileSuffix|];
      assert name == name[..|head|] + mid + name[|name| - |FileSuffix|..];
      Some(mid)
    else None
  }

  /** Parsing a generated name gives back the process. */
  lemma ParseOfPredFileName(binaryType: string, process: string)
    ensures ParsePredFileName(binaryType, PredFileName(binaryType, process)) == Some(process)
  {
  }

  /** Distinct processes are read from distinct files. */
  lemma PredFileNameInjective(binaryType: string, p: string, q: string)
    requires PredFileName(binaryType, p) == PredFileName(binaryType, q)
    ensures p == q
  {
    ParseOfPredFileName(binaryType, p);
    ParseOfPredFileName(binaryType, q);
  }

  /** The processes whose files make up the signal of `process`. */
  function SignalParts(process: string): (r: seq<string>)
    ensures |r| > 0
    ensures CombinedProcess !in r
    ensures process in r <==> process != CombinedProcess
    ensures BackgroundProcess in r ==> process == BackgroundProcess
  {
    if process == CombinedProcess then CombinedParts else [process]
  }

  /** Full paths of the signal files, in the order they are read. */
  function SignalFiles(dir: string, binaryType: string, process: string): (r: seq<string>)
    ensures process == CombinedProcess ==>
              r == [JoinPath(dir, PredFileName(binaryType, "WToQQ")),
                    JoinPath(dir, PredFileName(binaryType, "ZToQQ"))]
    ensures process != CombinedProcess ==>
              r == [JoinPath(dir, PredFileName(binaryType, process))]
  {
    var parts := SignalParts(process);
    seq(|parts|, i requires 0 <= i < |parts| => JoinPath(dir, PredFileName(binaryType, parts[i])))
  }

  /** Full path of the QCD background file. */
  function BackgroundFile(dir: string, binaryType: string): string {
    JoinPath(dir, PredFileName(binaryType, BackgroundProcess))
  }

  /** Every file one evaluation opens, in order: the signal files, then the
      background file. This is the reference read order the loading contracts refer to. */
  function PlannedReads(dir: string, binaryType: string, process: string): (r: seq<string>)
    ensures |r| == |SignalParts(process)| + 1
    ensures r[|r| - 1] == BackgroundFile(dir, binaryType)
    ensures r[..|r| - 1] == SignalFiles(dir, binaryType, process)
  {
    SignalFiles(dir, binaryType, process) + [BackgroundFile(dir, binaryType)]
  }

  /** Unless the process is itself called QCD, one evaluation never opens the same file twice. */
  lemma PlannedReadsDistinct(dir: string, binaryType: string, process: string)
    requires process != BackgroundProcess
    ensures var plan := PlannedReads(dir, binaryType, process);
            forall i, j :: 0 <= i < j < |plan| ==> plan[i] != plan[j]
  {
    SignalFilesDistinct(dir, binaryType, process);
    BackgroundNotASignalFile(dir, binaryType, process);
  }

  /** The signal files of one process are pairwise distinct. */
  lemma SignalFilesDistinct(dir: string, binaryType: string, process: string)
    ensures var sig := SignalFiles(dir, binaryType, process);
            forall i, j :: 0 <= i < j < |sig| ==> sig[i] != sig[j]
  {
    if process == CombinedProcess {
      var w := PredFileName(binaryType, "WToQQ");
      var z := PredFileName(binaryType, "ZToQQ");
      if JoinPath(dir, w) == JoinPath(dir, z) {
        assert w[0] == 'p' && z[0] == 'p';
        JoinPathInjective(dir, w, z);
        PredFileNameInjective(binaryType, "WToQQ", "ZToQQ");
      }
    }
  }

  /** Unless the process is itself called QCD, the background file is never
      also read as signal. */
  lemma BackgroundNotASignalFile(dir: string, binaryType: string, process: string)
    requires process != BackgroundProcess
    ensures BackgroundFile(dir, binaryType) !in SignalFiles(dir, binaryType, process)
  {
    var parts := SignalParts(process);
    var sig := SignalFiles(dir, binaryType, process);
    forall i | 0 <= i < |sig|
      ensures sig[i] != BackgroundFile(dir, binaryType)
    {
      if sig[i] == BackgroundFile(dir, binaryType) {
        var n := PredFileName(binaryType, parts[i]);
        var m := PredFileName(binaryType, BackgroundProcess);
        assert n[0] == 'p' && m[0] == 'p';
        JoinPathInjective(dir, n, m);
        PredFileNameInjective(binaryType, parts[i], BackgroundProcess);
      }
    }
  }

  /** The combined WZ evaluation opens exactly the files the WToQQ and ZToQQ
      evaluations open between them. */
  lemma CombinedReadsUnionOfParts(dir: string, binaryType: string)
    ensures (set f | f in PlannedReads(dir, binaryType, CombinedProcess))
            == (set f | f in PlannedReads(dir, binaryType, "WToQQ"))
               + (set f | f in PlannedReads(dir, binaryType, "ZToQQ"))
  {
  }
}
