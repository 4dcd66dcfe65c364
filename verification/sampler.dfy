/** The two sampler runs, `gtr_single_partition` and `site_heterogeneous_hky`:
    validation of the run parameters, the sample rows and keyword arguments
    handed to the control-file template, and the `beast` command line. */
module Sampler {
  import opened Wrappers
  import opened Layout
  import opened Plan
  import opened Steps
  import opened Commands

  type SampleId = string

  /** A metadata cell: a value, or NaN where the table has none. */
  datatype Cell<T> = Value(value: T) | NaN

  /** A metadata column, keyed by sample id. */
  type Series<T> = map<SampleId, Cell<T>>

  /** The NaN-to-`None` replacement applied to every joined cell. */
  function Clean<T>(c: Cell<T>): (r: Option<T>)
    ensures r.None? <==> c.NaN?
    ensures c.Value? ==> r == Some(c.value)
  {
    match c
    case Value(v) => Some(v)
    case NaN => None
  }

  /** A copy of `s` with every value overwritten by a missing value. */
  function Blank<T>(s: Series<T>): (b: Series<T>)
    ensures b.Keys == s.Keys
    ensures forall id :: id in b ==> b[id] == NaN
  {
    map id | id in s :: NaN
  }

  /** The run settings every template receives. */
  datatype RunSettings = RunSettings(
    treesFile: string, opsFile: string, logFile: string,
    sampleEvery: int, printEvery: int, nGenerations: int, timeUnit: string)

  /** The settings of a run; an absent print interval defaults to the sampling interval. */
  function Settings(nGenerations: int, sampleEvery: int, printEvery: Option<int>): (s: RunSettings)
    ensures s.treesFile == FileName(TreesFile) && s.opsFile == FileName(OpsFile) && s.logFile == FileName(LogFile)
    ensures s.nGenerations == nGenerations && s.sampleEvery == sampleEvery && s.timeUnit == "years"
    ensures printEvery.Some? ==> s.printEvery == printEvery.value
    ensures printEvery.None? ==> s.printEvery == sampleEvery
  {
    RunSettings(FileName(TreesFile), FileName(OpsFile), FileName(LogFile), sampleEvery, printEvery.GetOr(sampleEvery), nGenerations, "years")
  }

  /** The two steps of a sampler run: write the control file from the named
      template into the result directory, then run `beast` there on it. */
  function Run(template: string, useGpu: bool, nThreads: int): seq<Step> {
    [ Render(template, ResultFile(ControlFile)),
      Exec(BeastArgv(useGpu, nThreads, ResultFile(ControlFile)), true, None) ]
  }

  /** `steps` render `template` into the control file and then run the sampler
      in the result directory with the requested backend and thread count,
      the control file as its last argument. */
  predicate RunsBeast(steps: seq<Step>, template: string, useGpu: bool, nThreads: int) {
    && |steps| == 2
    && steps[0] == Render(template, ResultFile(ControlFile))
    && steps[1].Exec? && steps[1].inResultDir
    && |steps[1].argv| > 0
    && steps[1].argv[|steps[1].argv| - 1] == PathArg(ResultFile(ControlFile))
    && ReadBeast(steps[1].argv) == Some(BeastCall(useGpu, nThreads, ResultFile(ControlFile)))
  }

  lemma RunShape(template: string, useGpu: bool, nThreads: int)
    requires !(useGpu && nThreads != 1)
    ensures RunsBeast(Run(template, useGpu, nThreads), template, useGpu, nThreads)
  {
    ReadBeastArgv(useGpu, nThreads, ResultFile(ControlFile));
  }

  /** A sampler plan: the template's keyword arguments and the steps. */
  datatype SamplerPlan<K> = SamplerPlan(kwargs: K, steps: seq<Step>)

  // ------------------------------------------------- gtr_single_partition

  const GtrTemplate: string := "gtr_single_partition.xml"

  datatype GtrRow = GtrRow(sequence: Option<string>, time: Option<real>, timeUncertainty: Option<real>)

  /** Inner join of the three columns on sample id. */
  function JoinGtr(sequences: Series<string>, time: Series<real>, uncertainty: Series<real>): (rows: map<SampleId, GtrRow>)
    ensures forall id :: id in rows <==> id in sequences && id in time && id in uncertainty
    ensures forall id :: id in rows ==>
      rows[id] == GtrRow(Clean(sequences[id]), Clean(time[id]), Clean(uncertainty[id]))
  {
    map id | id in sequences && id in time && id in uncertainty ::
      GtrRow(Clean(sequences[id]), Clean(time[id]), Clean(uncertainty[id]))
  }

  datatype GtrParams = GtrParams(
    alignment: Series<string>,
    time: Series<real>,
    nGenerations: int,
    sampleEvery: int,
    timeUncertainty: Option<Series<real>>,
    baseFreq: string,
    siteGamma: int,
    siteInvariant: bool,
    clock: string,
    coalescentModel: string,
    skygridIntervals: Option<int>,
    skygridDuration: Option<real>,
    printEvery: Option<int>,
    useGpu: bool,
    nThreads: int)

  /** A call that passes only the required arguments. */
  function GtrDefaults(alignment: Series<string>, time: Series<real>, nGenerations: int, sampleEvery: int): GtrParams {
    GtrParams(alignment, time, nGenerations, sampleEvery, None, "estimated", 4, true,
              "ucln", "skygrid", None, None, None, false, 1)
  }

  datatype GtrKwargs = GtrKwargs(
    run: RunSettings,
    samples: map<SampleId, GtrRow>,
    baseFreq: string,
    siteGamma: int,
    siteInvariant: bool,
    clock: string,
    coalescentModel: string,
    skygridDuration: Option<real>,
    skygridIntervals: Option<int>)

  /** The skygrid coalescent is chosen without both of its parameters. */
  predicate SkygridUnset(p: GtrParams) {
    p.coalescentModel == "skygrid" && (p.skygridDuration.None? || p.skygridIntervals.None?)
  }

  function PlanGtr(p: GtrParams): (r: Result<SamplerPlan<GtrKwargs>, Error>)
    ensures r.Success? <==> !SkygridUnset(p) && !(p.useGpu && p.nThreads != 1)
    ensures SkygridUnset(p) ==> r == Failure(SkygridNotParameterized)
    ensures !SkygridUnset(p) && p.useGpu && p.nThreads != 1 ==> r == Failure(GpuWithThreads)
    ensures r.Success? ==> RunsBeast(r.value.steps, GtrTemplate, p.useGpu, p.nThreads)
    ensures r.Success? ==> r.value.kwargs.run == Settings(p.nGenerations, p.sampleEvery, p.printEvery)
    ensures r.Success? ==>
      r.value.kwargs.samples == JoinGtr(p.alignment, p.time, if p.timeUncertainty.Some? then p.timeUncertainty.value else Blank(p.time))
    ensures r.Success? ==>
      var k := r.value.kwargs;
      && k.coalescentModel == p.coalescentModel && k.skygridDuration == p.skygridDuration
      && k.skygridIntervals == p.skygridIntervals && k.clock == p.clock
      && k.baseFreq == p.baseFreq && k.siteGamma == p.siteGamma && k.siteInvariant == p.siteInvariant
  {
    if SkygridUnset(p) then Failure(SkygridNotParameterized)
    else if p.useGpu && p.nThreads != 1 then Failure(GpuWithThreads)
    else
      var uncertainty := if p.timeUncertainty.Some? then p.timeUncertainty.value else Blank(p.time);
      var kwargs := GtrKwargs(
        Settings(p.nGenerations, p.sampleEvery, p.printEvery),
        JoinGtr(p.alignment, p.time, uncertainty),
        p.baseFreq, p.siteGamma, p.siteInvariant, p.clock,
        p.coalescentModel, p.skygridDuration, p.skygridIntervals);
      RunShape(GtrTemplate, p.useGpu, p.nThreads);
      Success(SamplerPlan(kwargs, Run(GtrTemplate, p.useGpu, p.nThreads)))
  }

  /** With all optional arguments left at their defaults the run is refused:
      the default coalescent model is skygrid, whose parameters default to absent. */
  lemma DefaultsNeedSkygrid(alignment: Series<string>, time: Series<real>, nGenerations: int, sampleEvery: int)
    ensures PlanGtr(GtrDefaults(alignment, time, nGenerations, sampleEvery)) == Failure(SkygridNotParameterized)
  {
  }

  /** An accepted run has a row for exactly the samples present in the
      alignment, the time column and, when given, the uncertainty column. */
  lemma GtrSampleIds(p: GtrParams)
    requires PlanGtr(p).Success?
    ensures forall id :: id in PlanGtr(p).value.kwargs.samples <==>
      id in p.alignment && id in p.time && (p.timeUncertainty.Some? ==> id in p.timeUncertainty.value)
  {
  }

  /** A row's cells are those of the sample's own columns, a missing cell
      becoming `None`; without an uncertainty column every row has `None` there. */
  lemma GtrRowCells(p: GtrParams, id: SampleId)
    requires PlanGtr(p).Success?
    requires id in PlanGtr(p).value.kwargs.samples
    ensures var row := PlanGtr(p).value.kwargs.samples[id];
      && (p.alignment[id].Value? ==> row.sequence == Some(p.alignment[id].value))
      && (p.time[id].Value? ==> row.time == Some(p.time[id].value))
      && (p.timeUncertainty.Some? && p.timeUncertainty.value[id].Value? ==>
            row.timeUncertainty == Some(p.timeUncertainty.value[id].value))
    ensures var row := PlanGtr(p).value.kwargs.samples[id];
      && (row.sequence.None? <==> p.alignment[id].NaN?)
      && (row.time.None? <==> p.time[id].NaN?)
      && (p.timeUncertainty.None? ==> row.timeUncertainty == None)
      && (p.timeUncertainty.Some? ==> (row.timeUncertainty.None? <==> p.timeUncertainty.value[id].NaN?))
  {
  }

  // ----------------------------------------------- site_heterogeneous_hky

  const HkyTemplate: string := "orf_and_nc.xml"

  datatype HkyRow = HkyRow(seqOrf: Option<string>, seqNc: Option<string>, time: Option<real>, timeUncertainty: Option<real>)

  /** Inner join of the four columns on sample id. */
  function JoinHky(coding: Series<string>, noncoding: Series<string>, time: Series<real>, uncertainty: Series<real>): (rows: map<SampleId, HkyRow>)
    ensures forall id :: id in rows <==> id in coding && id in noncoding && id in time && id in uncertainty
    ensures forall id :: id in rows ==>
      rows[id] == HkyRow(Clean(coding[id]), Clean(noncoding[id]), Clean(time[id]), Clean(uncertainty[id]))
  {
    map id | id in coding && id in noncoding && id in time && id in uncertainty ::
      HkyRow(Clean(coding[id]), Clean(noncoding[id]), Clean(time[id]), Clean(uncertainty[id]))
  }

  datatype HkyParams = HkyParams(
    codingRegions: Series<string>,
    noncodingRegions: Series<string>,
    time: Series<real>,
    nGenerations: int,
    sampleEvery: int,
    printEvery: Option<int>,
    timeUncertainty: Option<Series<real>>,
    useGpu: bool,
    nThreads: int)

  datatype HkyKwargs = HkyKwargs(run: RunSettings, samples: map<SampleId, HkyRow>)

  /** No skygrid check here. The uncertainty column is read unconditionally,
      after the GPU check, so a run without one fails at that point. */
  function PlanHky(p: HkyParams): (r: Result<SamplerPlan<HkyKwargs>, Error>)
    ensures r.Success? <==> !(p.useGpu && p.nThreads != 1) && p.timeUncertainty.Some?
    ensures p.useGpu && p.nThreads != 1 ==> r == Failure(GpuWithThreads)
    ensures !(p.useGpu && p.nThreads != 1) && p.timeUncertainty.None? ==> r == Failure(NoUncertaintyColumn)
    ensures r.Success? ==> RunsBeast(r.value.steps, HkyTemplate, p.useGpu, p.nThreads)
    ensures r.Success? ==> r.value.kwargs.run == Settings(p.nGenerations, p.sampleEvery, p.printEvery)
    ensures r.Success? ==>
      r.value.kwargs.samples == JoinHky(p.codingRegions, p.noncodingRegions, p.time, p.timeUncertainty.value)
  {
    if p.useGpu && p.nThreads != 1 then Failure(GpuWithThreads)
    else if p.timeUncertainty.None? then Failure(NoUncertaintyColumn)
    else
      var kwargs := HkyKwargs(
        Settings(p.nGenerations, p.sampleEvery, p.printEvery),
        JoinHky(p.codingRegions, p.noncodingRegions, p.time, p.timeUncertainty.value));
      RunShape(HkyTemplate, p.useGpu, p.nThreads);
      Success(SamplerPlan(kwargs, Run(HkyTemplate, p.useGpu, p.nThreads)))
  }

  /** An accepted run has a row for exactly the samples present in all four columns. */
  lemma HkySampleIds(p: HkyParams)
    requires PlanHky(p).Success?
    ensures forall id :: id in PlanHky(p).value.kwargs.samples <==>
      id in p.codingRegions && id in p.noncodingRegions && id in p.time && id in p.timeUncertainty.value
  {
  }

  /** The hky counterpart of `GtrRowCells`: each row holds its own sample's
      coding region, non-coding region, time and uncertainty, in that order. */
  lemma HkyRowCells(p: HkyParams, id: SampleId)
    requires PlanHky(p).Success?
    requires id in PlanHky(p).value.kwargs.samples
    ensures var row := PlanHky(p).value.kwargs.samples[id];
      && (row.seqOrf.None? <==> p.codingRegions[id].NaN?)
      && (p.codingRegions[id].Value? ==> row.seqOrf == Some(p.codingRegions[id].value))
      && (row.seqNc.None? <==> p.noncodingRegions[id].NaN?)
      && (p.noncodingRegions[id].Value? ==> row.seqNc == Some(p.noncodingRegions[id].value))
      && (row.time.None? <==> p.time[id].NaN?)
      && (p.time[id].Value? ==> row.time == Some(p.time[id].value))
      && (row.timeUncertainty.None? <==> p.timeUncertainty.value[id].NaN?)
      && (p.timeUncertainty.value[id].Value? ==> row.timeUncertainty == Some(p.timeUncertainty.value[id].value))
  {
  }
}
