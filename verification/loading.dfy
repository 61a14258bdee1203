/**
 Loading discriminant values from prediction files. A file's `Events` tree
 is modelled as named columns of real-valued scores. The file system is a
 map from path to tree, so a missing file or a missing column is an
 ordinary error result rather than an exception.
 */
module Loading {
  import opened Results

  /** The QCD-class score column present in every prediction file. */
  const QcdBranch: string := "score_label_QCD"

  /** The `Events` tree of one prediction file: score columns by name. */
  datatype Events = Events(columns: map<string, seq<real>>)

  /** The prediction files visible to the script, by full path. */
  type Store = map<string, Events>

  /** Why a file could not be turned into discriminant values. */
  datatype LoadError =
    | MissingFile(path: string)
    | MissingColumn(path: string, column: string)
    | ShapeMismatch(path: string)
    | ZeroDenominator(path: string)

  /** The per-event discriminant pS / (pS + pB). */
  function Discriminant(pS: real, pB: real): (d: real)
    requires pS + pB != 0.0
    ensures d * (pS + pB) == pS
    ensures 0.0 <= pS && 0.0 <= pB ==> 0.0 <= d <= 1.0
  {
    pS / (pS + pB)
  }

  /** No event of the two columns has scores summing to zero. */
  predicate NonZeroSums(pS: seq<real>, pB: seq<real>)
    requires |pS| == |pB|
  {
    forall i :: 0 <= i < |pS| ==> pS[i] + pB[i] != 0.0
  }

  /** The discriminant of every event, in event order. */
  function Discriminants(pS: seq<real>, pB: seq<real>): (d: seq<real>)
    requires |pS| == |pB| && NonZeroSums(pS, pB)
    ensures |d| == |pS|
    ensures forall i :: 0 <= i < |d| ==> d[i] * (pS[i] + pB[i]) == pS[i]
  {
    if |pS| == 0 then []
    else [Discriminant(pS[0], pB[0])] + Discriminants(pS[1..], pB[1..])
  }

  /** Reads the signal-score column `branch` and the QCD column of the file at
      `path` and returns their discriminants. The signal column is looked up first. */
  function ReadDiscriminants(store: Store, path: string, branch: string): (r: Result<seq<real>, LoadError>)
    ensures path !in store ==> r == Failure(MissingFile(path))
    ensures path in store && branch !in store[path].columns
            ==> r == Failure(MissingColumn(path, branch))
    ensures path in store && branch in store[path].columns && QcdBranch !in store[path].columns
            ==> r == Failure(MissingColumn(path, QcdBranch))
    ensures path in store && branch in store[path].columns && QcdBranch in store[path].columns
            ==> var pS := store[path].columns[branch];
                var pB := store[path].columns[QcdBranch];
                (r.Success? <==> |pS| == |pB| && NonZeroSums(pS, pB))
    ensures r.Success? ==>
              && path in store
              && branch in store[path].columns && QcdBranch in store[path].columns
              && var pS := store[path].columns[branch];
                 var pB := store[path].columns[QcdBranch];
                 && |r.value| == |pS| == |pB|
                 && forall i :: 0 <= i < |pS| ==> r.value[i] * (pS[i] + pB[i]) == pS[i]
  {
    if path !in store then Failure(MissingFile(path))
    else
      var cols := store[path].columns;
      if branch !in cols then Failure(MissingColumn(path, branch))
      else if QcdBranch !in cols then Failure(MissingColumn(path, QcdBranch))
      else
        var pS := cols[branch];
        var pB := cols[QcdBranch];
        if |pS| != |pB| then Failure(ShapeMismatch(path))
        else if !NonZeroSums(pS, pB) then Failure(ZeroDenominator(path))
        else Success(Discriminants(pS, pB))
  }

  /** Reads the files in order and stops at the first one that fails. */
  function ReadAll(store: Store, paths: seq<string>, branch: string): (r: Result<seq<seq<real>>, LoadError>)
    ensures r.Success? ==>
              && |r.value| == |paths|
              && forall i :: 0 <= i < |paths| ==>
                   ReadDiscriminants(store, paths[i], branch) == Success(r.value[i])
    ensures r.Failure? ==>
              exists k :: 0 <= k < |paths|
                && ReadDiscriminants(store, paths[k], branch) == Failure(r.error)
                && forall j :: 0 <= j < k ==> ReadDiscriminants(store, paths[j], branch).Success?
    ensures r.Success? <==> forall i :: 0 <= i < |paths| ==> ReadDiscriminants(store, paths[i], branch).Success?
  {
    if |paths| == 0 then Success([])
    else
      match ReadDiscriminants(store, paths[0], branch)
      case Failure(e) => Failure(e)
      case Success(first) =>
        match ReadAll(store, paths[1..], branch)
        case Failure(e) =>
          assert forall j :: 1 <= j < |paths| ==> paths[j] == paths[1..][j - 1];
          Failure(e)
        case Success(rest) =>
          assert forall j :: 1 <= j < |paths| ==> paths[j] == paths[1..][j - 1];
          Success([first] + rest)
  }

  /** Joins the parts end to end, like `np.concatenate`: part `k` appears
      intact, starting right after the parts before it. */
  function Concat(parts: seq<seq<real>>): (r: seq<real>)
    ensures |r| == TotalLength(parts)
    ensures forall k :: 0 <= k < |parts| ==>
              && Offset(parts, k) + |parts[k]| <= |r|
              && r[Offset(parts, k)..Offset(parts, k) + |parts[k]|] == parts[k]
  {
    if |parts| == 0 then []
    else
      var rest := Concat(parts[1..]);
      forall k | 0 < k < |parts|
        ensures Offset(parts, k) == |parts[0]| + Offset(parts[1..], k - 1)
      {
        OffsetStep(parts, k);
      }
      assert Offset(parts, 0) == 0 by { assert parts[..0] == []; }
      assert forall k :: 0 < k < |parts| ==> parts[k] == parts[1..][k - 1];
      parts[0] + rest
  }

  /** Sum of the lengths of the parts. */
  function TotalLength(parts: seq<seq<real>>): nat {
    if |parts| == 0 then 0 else |parts[0]| + TotalLength(parts[1..])
  }

  /** Where part `k` starts in the concatenation: the total length of the parts before it. */
  function Offset(parts: seq<seq<real>>, k: nat): nat
    requires k <= |parts|
  {
    TotalLength(parts[..k])
  }

  /** Past the first part, offsets are those of the remaining parts shifted by its length. */
  lemma OffsetStep(parts: seq<seq<real>>, k: nat)
    requires 0 < k <= |parts|
    ensures Offset(parts, k) == |parts[0]| + Offset(parts[1..], k - 1)
  {
    assert parts[..k][0] == parts[0];
    assert parts[..k][1..] == parts[1..][..k - 1];
  }

  /** Concatenating two parts keeps each part intact and in order. */
  lemma ConcatTwo(a: seq<real>, b: seq<real>)
    ensures Concat([a, b]) == a + b
    ensures |Concat([a, b])| == |a| + |b|
    ensures Concat([a, b])[..|a|] == a && Concat([a, b])[|a|..] == b
  {
  }
}
