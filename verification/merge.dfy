/** `merge_chains` and its helper `_log_combiner`: validation of the chains
    and burn-ins, then the plan of combiner runs that trims and merges them. */
module Merge {
  import opened Wrappers
  import opened Layout
  import opened Plan
  import opened Steps
  import opened Commands

  /** The file `name` of each of the first `n` chains, in chain order. */
  function ChainFiles(n: nat, name: PosteriorFile): (fs: seq<FileRef>)
    ensures |fs| == n && forall i :: 0 <= i < n ==> fs[i] == ChainFile(i, name)
  {
    seq(n, i requires 0 <= i < n => ChainFile(i, name))
  }

  /** The intermediate file `name` made for each of the first `n` chains. */
  function ScratchFiles(n: nat, name: PosteriorFile): (fs: seq<FileRef>)
    ensures |fs| == n && forall i :: 0 <= i < n ==> fs[i] == Scratch(i, name)
  {
    seq(n, i requires 0 <= i < n => Scratch(i, name))
  }

  function Output(isTree: bool): PosteriorFile {
    if isTree then TreesFile else LogFile
  }

  /** The run that strips chain `i`'s own burn-in from its log or trees. */
  function StripCall(i: nat, burnIn: int, isTree: bool): CombinerCall {
    CombinerCall([ChainFile(i, Output(isTree))], Scratch(i, Output(isTree)), burnIn, isTree, None)
  }

  /** For chains `i`, `i+1`, ... in order: strip the burn-in of the log, then of the trees. */
  function StripBurnIns(burnIn: seq<int>, i: nat): (steps: seq<Step>)
    requires i <= |burnIn|
    ensures |steps| == 2 * (|burnIn| - i)
    ensures forall j :: i <= j < |burnIn| ==>
      && steps[2 * (j - i)] == Combine(StripCall(j, burnIn[j], false))
      && steps[2 * (j - i) + 1] == Combine(StripCall(j, burnIn[j], true))
    ensures forall k :: 0 <= k < |steps| ==>
      steps[k].Combine? && steps[k].call.out.Scratch? && steps[k].call.resample.None?
    decreases |burnIn| - i
  {
    if i == |burnIn| then []
    else
      var b := burnIn[i];
      var rest := StripBurnIns(burnIn, i + 1);
      var steps := [Combine(StripCall(i, b, false)), Combine(StripCall(i, b, true))] + rest;
      assert forall k :: 2 <= k < |steps| ==> steps[k] == rest[k - 2];
      steps
  }

  /** The result directory: the first chain's control file, an empty operator
      file, then one combined log and one combined trees file. */
  function Finish(logs: seq<FileRef>, trees: seq<FileRef>, burnIn: int, resample: Option<int>): seq<Step> {
    [ CopyFile(ChainFile(0, ControlFile), ResultFile(ControlFile)),
      WriteText(ResultFile(OpsFile), ""),
      Combine(CombinerCall(logs, ResultFile(LogFile), burnIn, false, resample)),
      Combine(CombinerCall(trees, ResultFile(TreesFile), burnIn, true, resample)) ]
  }

  /** The burn-in list is usable with `n` chains: one shared value, or one per chain. */
  predicate BurnInsFit(burnIn: seq<int>, n: nat) {
    |burnIn| == 1 || (|burnIn| > 1 && |burnIn| == n)
  }

  /** The steps of an accepted merge: per-chain burn-in stripping when several
      burn-ins are given, then the final merge of everything. */
  predicate MergePlanShape(steps: seq<Step>, n: nat, burnIn: seq<int>, resample: Option<int>)
    requires BurnInsFit(burnIn, n)
  {
    var m := if |burnIn| > 1 then 2 * n else 0;
    && |steps| == m + 4
    && (|burnIn| > 1 ==> forall j :: 0 <= j < n ==>
          && steps[2 * j] == Combine(StripCall(j, burnIn[j], false))
          && steps[2 * j + 1] == Combine(StripCall(j, burnIn[j], true)))
    && (forall k :: 0 <= k < m ==>
          steps[k].Combine? && steps[k].call.out.Scratch? && steps[k].call.resample.None?)
    && steps[m] == CopyFile(ChainFile(0, ControlFile), ResultFile(ControlFile))
    && steps[m + 1] == WriteText(ResultFile(OpsFile), "")
    && (if |burnIn| > 1 then
          && steps[m + 2] == Combine(CombinerCall(ScratchFiles(n, LogFile), ResultFile(LogFile), 0, false, resample))
          && steps[m + 3] == Combine(CombinerCall(ScratchFiles(n, TreesFile), ResultFile(TreesFile), 0, true, resample))
        else
          && steps[m + 2] == Combine(CombinerCall(ChainFiles(n, LogFile), ResultFile(LogFile), burnIn[0], false, resample))
          && steps[m + 3] == Combine(CombinerCall(ChainFiles(n, TreesFile), ResultFile(TreesFile), burnIn[0], true, resample)))
  }

  function PlanMerge(chains: seq<Chain>, burnIn: seq<int>, resample: Option<int>): (r: Result<seq<Step>, Error>)
    ensures r.Success? <==> |chains| > 0 && BurnInsFit(burnIn, |chains|) && ShareControl(chains)
    ensures |burnIn| > 1 && |burnIn| != |chains| ==> r == Failure(BurnInCountMismatch)
    ensures !(|burnIn| > 1 && |burnIn| != |chains|) && |chains| == 0 ==> r == Failure(NoChains)
    ensures !(|burnIn| > 1 && |burnIn| != |chains|) && |chains| > 0 && !ShareControl(chains) ==>
      r == Failure(IncompatibleChains)
    ensures |burnIn| == 0 && |chains| > 0 && ShareControl(chains) ==> r == Failure(NoBurnIn)
    ensures r.Success? ==> MergePlanShape(r.value, |chains|, burnIn, resample)
  {
    if |burnIn| > 1 && |burnIn| != |chains| then Failure(BurnInCountMismatch)
    else if |chains| == 0 then Failure(NoChains)
    else if |ControlChecksums(chains)| > 1 then
      SingleChecksumIffShared(chains);
      Failure(IncompatibleChains)
    else
      SingleChecksumIffShared(chains);
      var n := |chains|;
      if |burnIn| > 1 then
        var strip := StripBurnIns(burnIn, 0);
        var steps := strip + Finish(ScratchFiles(n, LogFile), ScratchFiles(n, TreesFile), 0, resample);
        assert forall k :: 0 <= k < 2 * n ==> steps[k] == strip[k];
        Success(steps)
      else if |burnIn| == 0 then Failure(NoBurnIn)
      else
        Success(Finish(ChainFiles(n, LogFile), ChainFiles(n, TreesFile), burnIn[0], resample))
  }

  /** The checksum of the control file the plan leaves in the result
      directory, when that file is a copy of an input chain's. */
  function MergedChecksum(steps: seq<Step>, chains: seq<Chain>): Option<Checksum> {
    match FinalContent(steps, ResultFile(ControlFile))
    case Some(CopyOf(ChainFile(i, name))) =>
      if name == ControlFile && i < |chains| then Some(chains[i].controlChecksum) else None
    case _ => None
  }

  /** No step before the final four writes a file of the result directory's
      control or operator file. */
  lemma PrefixWritesNeither(steps: seq<Step>, n: nat, burnIn: seq<int>, resample: Option<int>)
    requires BurnInsFit(burnIn, n) && MergePlanShape(steps, n, burnIn, resample)
    ensures FinalContent(steps[..|steps| - 4], ResultFile(ControlFile)) == None
    ensures FinalContent(steps[..|steps| - 4], ResultFile(OpsFile)) == None
  {
    var pre := steps[..|steps| - 4];
    forall k | 0 <= k < |pre|
      ensures !Writes(pre[k], ResultFile(ControlFile)) && !Writes(pre[k], ResultFile(OpsFile))
    {
      assert pre[k] == steps[k];
    }
    FinalContentNone(pre, ResultFile(ControlFile));
    FinalContentNone(pre, ResultFile(OpsFile));
  }

  /** The content of `dst` after a plan whose last two steps do not write it. */
  lemma LastFour(steps: seq<Step>, dst: FileRef)
    requires |steps| >= 4
    requires !Writes(steps[|steps| - 2], dst) && !Writes(steps[|steps| - 1], dst)
    ensures FinalContent(steps, dst) ==
      if Writes(steps[|steps| - 3], dst) then Some(ContentOf(steps[|steps| - 3]))
      else if Writes(steps[|steps| - 4], dst) then Some(ContentOf(steps[|steps| - 4]))
      else FinalContent(steps[..|steps| - 4], dst)
  {
    var n := |steps|;
    var s3, s2, s1 := steps[..n - 1], steps[..n - 2], steps[..n - 3];
    assert s3[..n - 2] == s2 && s3[n - 2] == steps[n - 2];
    assert s2[..n - 3] == s1 && s2[n - 3] == steps[n - 3];
    assert s1[..n - 4] == steps[..n - 4] && s1[n - 4] == steps[n - 4];
    assert FinalContent(steps, dst) == FinalContent(s3, dst);
    assert FinalContent(s3, dst) == FinalContent(s2, dst);
    assert FinalContent(s2, dst) == if Writes(steps[n - 3], dst) then Some(ContentOf(steps[n - 3])) else FinalContent(s1, dst);
    assert FinalContent(s1, dst) == if Writes(steps[n - 4], dst) then Some(ContentOf(steps[n - 4])) else FinalContent(steps[..n - 4], dst);
  }

  /** A plan whose last four steps copy the first chain's control file, write
      an empty operator file, and then write two other result files. */
  lemma ContentsAfterFinish(steps: seq<Step>)
    requires |steps| >= 4
    requires FinalContent(steps[..|steps| - 4], ResultFile(ControlFile)) == None
    requires FinalContent(steps[..|steps| - 4], ResultFile(OpsFile)) == None
    requires steps[|steps| - 4] == CopyFile(ChainFile(0, ControlFile), ResultFile(ControlFile))
    requires steps[|steps| - 3] == WriteText(ResultFile(OpsFile), "")
    requires steps[|steps| - 2].Combine? && steps[|steps| - 2].call.out == ResultFile(LogFile)
    requires steps[|steps| - 1].Combine? && steps[|steps| - 1].call.out == ResultFile(TreesFile)
    ensures FinalContent(steps, ResultFile(ControlFile)) == Some(CopyOf(ChainFile(0, ControlFile)))
    ensures FinalContent(steps, ResultFile(OpsFile)) == Some(Text(""))
  {
    LastFour(steps, ResultFile(ControlFile));
    LastFour(steps, ResultFile(OpsFile));
  }

  /** Whatever the burn-in policy, the plan leaves the first chain's control
      file and an empty operator file in the result directory. */
  lemma ShapeContents(steps: seq<Step>, n: nat, burnIn: seq<int>, resample: Option<int>)
    requires BurnInsFit(burnIn, n) && MergePlanShape(steps, n, burnIn, resample)
    ensures FinalContent(steps, ResultFile(ControlFile)) == Some(CopyOf(ChainFile(0, ControlFile)))
    ensures FinalContent(steps, ResultFile(OpsFile)) == Some(Text(""))
  {
    PrefixWritesNeither(steps, n, burnIn, resample);
    ContentsAfterFinish(steps);
  }

  /** The merged chain carries the control file of the first input chain, so
      its checksum is the one every input chain shares, and an empty operator file. */
  lemma MergedChainIdentity(chains: seq<Chain>, burnIn: seq<int>, resample: Option<int>)
    requires PlanMerge(chains, burnIn, resample).Success?
    ensures forall i :: 0 <= i < |chains| ==>
      MergedChecksum(PlanMerge(chains, burnIn, resample).value, chains) == Some(chains[i].controlChecksum)
    ensures FinalContent(PlanMerge(chains, burnIn, resample).value, ResultFile(OpsFile)) == Some(Text(""))
  {
    ShapeContents(PlanMerge(chains, burnIn, resample).value, |chains|, burnIn, resample);
  }

  lemma StripCount(burnIn: seq<int>, i: nat)
    requires i <= |burnIn|
    ensures ExecCount(StripBurnIns(burnIn, i)) == 2 * (|burnIn| - i)
  {
    ExecCountAll(StripBurnIns(burnIn, i));
  }

  lemma FinishCount(logs: seq<FileRef>, trees: seq<FileRef>, burnIn: int, resample: Option<int>)
    ensures ExecCount(Finish(logs, trees, burnIn, resample)) == 2
  {
    var f := Finish(logs, trees, burnIn, resample);
    assert f == [f[0]] + ([f[1]] + ([f[2]] + ([f[3]] + [])));
    ExecCountCons(f[3], []);
    ExecCountCons(f[2], [f[3]] + []);
    ExecCountCons(f[1], [f[2]] + ([f[3]] + []));
    ExecCountCons(f[0], [f[1]] + ([f[2]] + ([f[3]] + [])));
  }

  /** An accepted merge spawns 2·N + 2 combiner runs with per-chain burn-ins
      and exactly 2 with a shared burn-in. */
  lemma MergeCallCount(chains: seq<Chain>, burnIn: seq<int>, resample: Option<int>)
    requires PlanMerge(chains, burnIn, resample).Success?
    ensures ExecCount(PlanMerge(chains, burnIn, resample).value)
         == if |burnIn| > 1 then 2 * |chains| + 2 else 2
  {
    var n := |chains|;
    if |burnIn| > 1 {
      var fin := Finish(ScratchFiles(n, LogFile), ScratchFiles(n, TreesFile), 0, resample);
      StripCount(burnIn, 0);
      FinishCount(ScratchFiles(n, LogFile), ScratchFiles(n, TreesFile), 0, resample);
      ExecCountAppend(StripBurnIns(burnIn, 0), fin);
    } else {
      FinishCount(ChainFiles(n, LogFile), ChainFiles(n, TreesFile), burnIn[0], resample);
    }
  }

  /** In a merge plan every process is a combiner run; only the last two carry `resample`. */
  lemma ShapeCalls(steps: seq<Step>, n: nat, burnIn: seq<int>, resample: Option<int>, k: nat)
    requires BurnInsFit(burnIn, n) && MergePlanShape(steps, n, burnIn, resample)
    requires k < |steps| && Spawns(steps[k])
    ensures steps[k].Combine?
    ensures steps[k].call.resample == if k < |steps| - 2 then None else resample
  {
  }

  /** Every process of a merge plan is a combiner run, and only the last
      two are asked to resample. */
  lemma ShapeResample(steps: seq<Step>, n: nat, burnIn: seq<int>, resample: Option<int>, k: nat)
    requires BurnInsFit(burnIn, n) && MergePlanShape(steps, n, burnIn, resample)
    requires k < |steps| && Spawns(steps[k])
    ensures ReadCombiner(ArgvOf(steps[k])).Some?
    ensures ReadCombiner(ArgvOf(steps[k])).value.resample == if k < |steps| - 2 then None else resample
  {
    ShapeCalls(steps, n, burnIn, resample, k);
    var c := steps[k].call;
    ReadCombinerArgv(c.files, c.out, c.burnIn, c.isTree, c.resample);
  }

  lemma ResampleOnlyAtTheEnd(chains: seq<Chain>, burnIn: seq<int>, resample: Option<int>)
    requires PlanMerge(chains, burnIn, resample).Success?
    ensures var steps := PlanMerge(chains, burnIn, resample).value;
      forall k :: 0 <= k < |steps| && Spawns(steps[k]) ==>
        && ReadCombiner(ArgvOf(steps[k])).Some?
        && ReadCombiner(ArgvOf(steps[k])).value.resample == if k < |steps| - 2 then None else resample
  {
    var steps := PlanMerge(chains, burnIn, resample).value;
    forall k | 0 <= k < |steps| && Spawns(steps[k])
      ensures ReadCombiner(ArgvOf(steps[k])).Some?
      ensures ReadCombiner(ArgvOf(steps[k])).value.resample == if k < |steps| - 2 then None else resample
    {
      ShapeResample(steps, |chains|, burnIn, resample, k);
    }
  }

  // ------------------------------------------------ maximum_clade_credibility

  /** `maximum_clade_credibility`: one annotator run on the chain's trees. */
  function PlanMcc(burnIn: int): (steps: seq<Step>)
    ensures |steps| == 1 && steps[0].Exec? && !steps[0].inResultDir && Writes(steps[0], FreshNexus)
    ensures ReadAnnotator(ArgvOf(steps[0])) == Some(AnnotatorCall(burnIn, ChainFile(0, TreesFile), FreshNexus))
  {
    ReadAnnotatorArgv(burnIn, ChainFile(0, TreesFile), FreshNexus);
    [Exec(AnnotatorArgv(burnIn, ChainFile(0, TreesFile), FreshNexus), false, Some(FreshNexus))]
  }
}
