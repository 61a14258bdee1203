/**
 Auto-detection of the binary classification a prediction directory holds.
 The file names are tested against three fixed patterns in priority order:
 WZ, then HToCC, then TTbar. The first pattern found in any name selects
 its configuration. If no pattern is found, detection fails.
 */
module BinaryType {
  import opened Results
  import opened Substrings

  /** One detected configuration: category name, signal processes to evaluate
      (in order), and the score column holding the signal-class output. */
  datatype BinaryConfig = BinaryConfig(binaryType: string, processes: seq<string>, scoreBranch: string)

  /** Detection found none of the three patterns. */
  datatype DetectError = CannotDetect

  const WzPattern: string := "WZ_vs_QCD"
  const HccPattern: string := "HToCC_vs_QCD"
  const TtbarPattern: string := "TTbar_vs_QCD"

  const WzConfig: BinaryConfig :=
    BinaryConfig(WzPattern, ["WToQQ", "ZToQQ", "WZ"], "score_(label_Wqq) | (label_Zqq)")
  const HccConfig: BinaryConfig :=
    BinaryConfig(HccPattern, ["HToCC"], "score_label_Hcc")
  const TtbarConfig: BinaryConfig :=
    BinaryConfig(TtbarPattern, ["TTBar"], "score_label_Tbqq")

  /** Picks the configuration from the names of the files in the directory. */
  function DetectBinaryType(files: seq<string>): (r: Result<BinaryConfig, DetectError>)
    ensures SomeNameHas(files, WzPattern) ==> r == Success(WzConfig)
    ensures (!SomeNameHas(files, WzPattern) && SomeNameHas(files, HccPattern))
            ==> r == Success(HccConfig)
    ensures (!SomeNameHas(files, WzPattern) && !SomeNameHas(files, HccPattern)
             && SomeNameHas(files, TtbarPattern))
            ==> r == Success(TtbarConfig)
    ensures r.Failure? <==>
            (!SomeNameHas(files, WzPattern) && !SomeNameHas(files, HccPattern)
             && !SomeNameHas(files, TtbarPattern))
  {
    if AnyContains(files, WzPattern) then Success(WzConfig)
    else if AnyContains(files, HccPattern) then Success(HccConfig)
    else if AnyContains(files, TtbarPattern) then Success(TtbarConfig)
    else Failure(CannotDetect)
  }

  /** Every successful detection is one of the three fixed configurations, its
      category name occurs in some file name, and it names at least one process. */
  lemma DetectedTypeIsWitnessed(files: seq<string>)
    requires DetectBinaryType(files).Success?
    ensures var c := DetectBinaryType(files).value;
            && c in {WzConfig, HccConfig, TtbarConfig}
            && SomeNameHas(files, c.binaryType)
            && |c.processes| > 0
  {
  }

  /** An empty directory cannot be classified. */
  lemma EmptyDirectoryFails()
    ensures DetectBinaryType([]) == Failure(CannotDetect)
  {
  }

  /** Only the set of names present matters: reordering, duplicating or
      dropping duplicate names leaves the result unchanged. */
  lemma {:induction false} DetectionIgnoresOrder(a: seq<string>, b: seq<string>)
    requires forall f :: f in a <==> f in b
    ensures DetectBinaryType(a) == DetectBinaryType(b)
  {
    SomeNameHasOnlyNamesMatter(a, b, WzPattern);
    SomeNameHasOnlyNamesMatter(a, b, HccPattern);
    SomeNameHasOnlyNamesMatter(a, b, TtbarPattern);
  }

  /** In particular, any permutation of the listing gives the same result. */
  lemma DetectionIgnoresPermutation(a: seq<string>, b: seq<string>)
    requires multiset(a) == multiset(b)
    ensures DetectBinaryType(a) == DetectBinaryType(b)
  {
    forall f ensures f in a <==> f in b {
      assert f in a <==> f in multiset(a);
      assert f in b <==> f in multiset(b);
    }
    DetectionIgnoresOrder(a, b);
  }

  /** A WZ file wins whatever other names sit beside it. */
  lemma WzWinsOverAnyOtherNames(wz: string, others: seq<string>, i: nat)
    requires Occurs(WzPattern, wz) && i <= |others|
    ensures DetectBinaryType(others[..i] + [wz] + others[i..]) == Success(WzConfig)
  {
    var files := others[..i] + [wz] + others[i..];
    assert files[i] == wz;
  }

  /** A name holding the HToCC pattern but no WZ pattern anywhere selects HToCC,
      even when TTbar names are also present. */
  lemma HccWinsOverTtbar(files: seq<string>, k: nat)
    requires k < |files| && Occurs(HccPattern, files[k])
    requires forall j :: 0 <= j < |files| ==> !Occurs(WzPattern, files[j])
    ensures DetectBinaryType(files) == Success(HccConfig)
  {
  }
}
