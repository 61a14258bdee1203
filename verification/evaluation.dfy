/**
 How detection and file planning fit together: the processes a detected
 configuration lists are evaluated one after another, each reading the
 files `InputFiles` plans for it.
 */
module Evaluation {
  import opened BinaryType
  import opened InputFiles

  /** The WZ configuration evaluates the two parts on their own and then the
      combined process that expands to exactly those parts. */
  lemma WzConfigListsPartsThenCombined()
    ensures WzConfig.processes == CombinedParts + [CombinedProcess]
    ensures SignalParts(CombinedProcess) == WzConfig.processes[..2]
  {
  }

  /** No process of a detected configuration is the background itself, so
      none of its evaluations opens a file twice. */
  lemma {:induction false} DetectedProcessesReadDistinctFiles(files: seq<string>, dir: string, process: string)
    requires DetectBinaryType(files).Success?
    requires process in DetectBinaryType(files).value.processes
    ensures var plan := PlannedReads(dir, DetectBinaryType(files).value.binaryType, process);
            forall i, j :: 0 <= i < j < |plan| ==> plan[i] != plan[j]
  {
    DetectedTypeIsWitnessed(files);
    assert process != BackgroundProcess;
    PlannedReadsDistinct(dir, DetectBinaryType(files).value.binaryType, process);
  }
}
