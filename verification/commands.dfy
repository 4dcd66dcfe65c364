/** The command lines of the three external binaries the plugin drives
    (`beast`, `logcombiner`, `treeannotator`), each paired with a reader that
    recovers the call from its argument vector. */
module Commands {
  import opened Wrappers
  import opened Decimal
  import opened Plan

  /** `str()` of every path, in order. */
  function PathArgs(files: seq<FileRef>): (args: seq<Arg>)
    ensures |args| == |files|
    ensures forall i :: 0 <= i < |files| ==> args[i] == PathArg(files[i])
  {
    seq(|files|, i requires 0 <= i < |files| => PathArg(files[i]))
  }

  /** The paths of a run of path arguments; `None` if any argument is a word. */
  function ReadPaths(args: seq<Arg>): Option<seq<FileRef>> {
    if |args| == 0 then Some([])
    else if !args[0].PathArg? then None
    else match ReadPaths(args[1..])
      case None => None
      case Some(files) => Some([args[0].file] + files)
  }

  lemma {:induction false} ReadPathArgs(files: seq<FileRef>)
    ensures ReadPaths(PathArgs(files)) == Some(files)
  {
    if |files| > 0 {
      assert PathArgs(files)[1..] == PathArgs(files[1..]);
      ReadPathArgs(files[1..]);
      assert files == [files[0]] + files[1..];
    }
  }

  function ReadInt(a: Arg): Option<int> {
    if a.Word? then ParseInt(a.text) else None
  }

  /** An integer argument reads back only from the text `str()` writes. */
  lemma ReadIntCanonical(a: Arg, i: int)
    requires ReadInt(a) == Some(i)
    ensures a == Word(IntToString(i))
  {
    ParseIntCanonical(a.text, i);
  }

  /** Only the path arguments of `files` read back as `files`. */
  lemma {:induction false} ReadPathsExact(args: seq<Arg>, files: seq<FileRef>)
    requires ReadPaths(args) == Some(files)
    ensures args == PathArgs(files)
  {
    if |args| > 0 {
      var tail := ReadPaths(args[1..]).value;
      ReadPathsExact(args[1..], tail);
      assert files == [args[0].file] + tail;
      assert PathArgs(files)[1..] == PathArgs(tail);
    }
  }

  // ---------------------------------------------------------------- beast

  /** The sampler's command line: backend flags, instance count, control file. */
  function BeastArgv(useGpu: bool, nThreads: int, control: FileRef): (argv: seq<Arg>)
    ensures |argv| == 6
    ensures argv[0] == Word("beast") && argv[3] == Word("-beagle_instances")
    ensures argv[|argv| - 1] == PathArg(control)
  {
    [Word("beast")]
    + (if useGpu then [Word("-beagle_GPU"), Word("-beagle_cuda"), Word("-beagle_instances"), Word("1")]
       else [Word("-beagle_CPU"), Word("-beagle_SSE"), Word("-beagle_instances"), Word(IntToString(nThreads))])
    + [PathArg(control)]
  }

  /** What a `beast` command line asks for. */
  datatype BeastCall = BeastCall(useGpu: bool, instances: int, control: FileRef)

  function ReadBeast(argv: seq<Arg>): Option<BeastCall> {
    if |argv| != 6 || argv[0] != Word("beast") || argv[3] != Word("-beagle_instances") || !argv[5].PathArg? then None
    else match ReadInt(argv[4])
      case None => None
      case Some(n) =>
        if argv[1] == Word("-beagle_GPU") && argv[2] == Word("-beagle_cuda") then Some(BeastCall(true, n, argv[5].file))
        else if argv[1] == Word("-beagle_CPU") && argv[2] == Word("-beagle_SSE") then Some(BeastCall(false, n, argv[5].file))
        else None
  }

  /** The command line selects the requested backend and the control file;
      a GPU run always uses one instance, a CPU run one per thread. */
  lemma ReadBeastArgv(useGpu: bool, nThreads: int, control: FileRef)
    ensures ReadBeast(BeastArgv(useGpu, nThreads, control))
         == Some(BeastCall(useGpu, if useGpu then 1 else nThreads, control))
  {
    ParseIntToString(1);
    ParseIntToString(nThreads);
  }

  /** What the `beast` reader demands of each argument it accepts. */
  lemma ReadBeastFields(argv: seq<Arg>, call: BeastCall)
    requires ReadBeast(argv) == Some(call)
    ensures |argv| == 6 && argv[0] == Word("beast") && argv[3] == Word("-beagle_instances")
    ensures argv[4] == Word(IntToString(call.instances)) && argv[5] == PathArg(call.control)
    ensures call.useGpu ==> argv[1] == Word("-beagle_GPU") && argv[2] == Word("-beagle_cuda")
    ensures !call.useGpu ==> argv[1] == Word("-beagle_CPU") && argv[2] == Word("-beagle_SSE")
  {
    ReadIntCanonical(argv[4], call.instances);
  }

  /** No other command line reads back as the planned `beast` call. */
  lemma ReadBeastExact(argv: seq<Arg>, useGpu: bool, nThreads: int, control: FileRef)
    requires ReadBeast(argv) == Some(BeastCall(useGpu, if useGpu then 1 else nThreads, control))
    ensures argv == BeastArgv(useGpu, nThreads, control)
  {
    ReadBeastFields(argv, BeastCall(useGpu, if useGpu then 1 else nThreads, control));
    if useGpu {
      assert IntToString(1) == "1";
    }
    assert argv == [argv[0]] + [argv[1], argv[2], argv[3], argv[4]] + [argv[5]];
  }

  // ---------------------------------------------------------- logcombiner

  /** What a `logcombiner` command line asks for. */
  datatype CombinerCall = CombinerCall(files: seq<FileRef>, out: FileRef, burnIn: int, isTree: bool, resample: Option<int>)

  function TreesFlag(isTree: bool): (args: seq<Arg>)
    ensures |args| == (if isTree then 1 else 0)
  {
    if isTree then [Word("-trees")] else []
  }

  function ResampleFlag(resample: Option<int>): (args: seq<Arg>)
    ensures |args| == (if resample.Some? then 2 else 0)
  {
    match resample
    case Some(r) => [Word("-resample"), Word(IntToString(r))]
    case None => []
  }

  /** The combiner's command line: burn-in, the tree switch, the optional
      resample interval, the inputs in order, and the output last. */
  function CombinerArgv(files: seq<FileRef>, out: FileRef, burnIn: int, isTree: bool, resample: Option<int>): (argv: seq<Arg>)
    ensures |argv| == 4 + |files| + (if isTree then 1 else 0) + (if resample.Some? then 2 else 0)
    ensures argv[|argv| - 1] == PathArg(out)
  {
    [Word("logcombiner"), Word("-burnin"), Word(IntToString(burnIn))]
    + (TreesFlag(isTree) + (ResampleFlag(resample) + (PathArgs(files) + [PathArg(out)])))
  }

  function ReadCombiner(argv: seq<Arg>): Option<CombinerCall> {
    if |argv| < 3 || argv[0] != Word("logcombiner") || argv[1] != Word("-burnin") then None
    else match ReadInt(argv[2])
      case None => None
      case Some(b) =>
        var rest := argv[3..];
        var isTree := |rest| > 0 && rest[0] == Word("-trees");
        ReadCombinerTail(if isTree then rest[1..] else rest, b, isTree)
  }

  /** Reads the optional resample interval, then the paths. */
  function ReadCombinerTail(rest: seq<Arg>, burnIn: int, isTree: bool): Option<CombinerCall> {
    if |rest| >= 2 && rest[0] == Word("-resample") && ReadInt(rest[1]).Some? then
      ReadCombinerPaths(rest[2..], burnIn, isTree, ReadInt(rest[1]))
    else
      ReadCombinerPaths(rest, burnIn, isTree, None)
  }

  /** Reads the inputs, then the output last. */
  function ReadCombinerPaths(rest: seq<Arg>, burnIn: int, isTree: bool, resample: Option<int>): Option<CombinerCall> {
    if |rest| == 0 || !rest[|rest| - 1].PathArg? then None
    else match ReadPaths(rest[..|rest| - 1])
      case None => None
      case Some(files) => Some(CombinerCall(files, rest[|rest| - 1].file, burnIn, isTree, resample))
  }

  lemma ReadCombinerPathsOf(files: seq<FileRef>, out: FileRef, burnIn: int, isTree: bool, resample: Option<int>)
    ensures ReadCombinerPaths(PathArgs(files) + [PathArg(out)], burnIn, isTree, resample)
         == Some(CombinerCall(files, out, burnIn, isTree, resample))
  {
    var rest := PathArgs(files) + [PathArg(out)];
    assert rest[..|rest| - 1] == PathArgs(files);
    ReadPathArgs(files);
  }

  lemma ReadCombinerTailOf(files: seq<FileRef>, out: FileRef, burnIn: int, isTree: bool, resample: Option<int>)
    ensures ReadCombinerTail(ResampleFlag(resample) + (PathArgs(files) + [PathArg(out)]), burnIn, isTree)
         == Some(CombinerCall(files, out, burnIn, isTree, resample))
  {
    ReadCombinerPathsOf(files, out, burnIn, isTree, resample);
    var paths := PathArgs(files) + [PathArg(out)];
    var tail := ResampleFlag(resample) + paths;
    match resample
    case Some(r) =>
      ParseIntToString(r);
      assert tail[2..] == paths;
    case None =>
      assert ResampleFlag(resample) == [];
      assert tail == paths;
      assert paths[0].PathArg? by {
        if |files| > 0 {
          assert paths[0] == PathArg(files[0]);
        }
      }
      assert ReadCombinerTail(tail, burnIn, isTree) == ReadCombinerPaths(paths, burnIn, isTree, None);
  }

  /** The fixed head of a combiner command line reads back as its burn-in. */
  lemma ReadCombinerHead(burnIn: int, rest: seq<Arg>)
    ensures ReadCombiner([Word("logcombiner"), Word("-burnin"), Word(IntToString(burnIn))] + rest)
         == var isTree := |rest| > 0 && rest[0] == Word("-trees");
            ReadCombinerTail(if isTree then rest[1..] else rest, burnIn, isTree)
  {
    var argv := [Word("logcombiner"), Word("-burnin"), Word(IntToString(burnIn))] + rest;
    ParseIntToString(burnIn);
    assert argv[2] == Word(IntToString(burnIn));
    assert argv[3..] == rest;
  }

  /** What follows the tree switch never looks like the tree switch. */
  lemma TailNotTrees(files: seq<FileRef>, out: FileRef, resample: Option<int>)
    ensures var tail := ResampleFlag(resample) + (PathArgs(files) + [PathArg(out)]);
      |tail| > 0 && tail[0] != Word("-trees")
  {
    var tail := ResampleFlag(resample) + (PathArgs(files) + [PathArg(out)]);
    if resample.Some? {
      assert tail[0] == Word("-resample");
    } else if |files| > 0 {
      assert tail[0] == PathArg(files[0]);
    } else {
      assert tail[0] == PathArg(out);
    }
  }

  /** Round trip: the combiner receives exactly the burn-in, tree switch,
      resample interval, inputs and output it was planned with. */
  lemma ReadCombinerArgv(files: seq<FileRef>, out: FileRef, burnIn: int, isTree: bool, resample: Option<int>)
    ensures ReadCombiner(CombinerArgv(files, out, burnIn, isTree, resample))
         == Some(CombinerCall(files, out, burnIn, isTree, resample))
  {
    var tail := ResampleFlag(resample) + (PathArgs(files) + [PathArg(out)]);
    var rest := TreesFlag(isTree) + tail;
    ReadCombinerHead(burnIn, rest);
    TailNotTrees(files, out, resample);
    if isTree {
      assert rest[0] == Word("-trees") && rest[1..] == tail;
    } else {
      assert rest == tail;
    }
    ReadCombinerTailOf(files, out, burnIn, isTree, resample);
  }

  lemma ReadCombinerPathsExact(rest: seq<Arg>, burnIn: int, isTree: bool, resample: Option<int>, c: CombinerCall)
    requires ReadCombinerPaths(rest, burnIn, isTree, resample) == Some(c)
    ensures rest == PathArgs(c.files) + [PathArg(c.out)]
    ensures c.burnIn == burnIn && c.isTree == isTree && c.resample == resample
  {
    ReadPathsExact(rest[..|rest| - 1], c.files);
    assert rest == rest[..|rest| - 1] + [rest[|rest| - 1]];
  }

  lemma ReadCombinerTailExact(rest: seq<Arg>, burnIn: int, isTree: bool, c: CombinerCall)
    requires ReadCombinerTail(rest, burnIn, isTree) == Some(c)
    ensures rest == ResampleFlag(c.resample) + (PathArgs(c.files) + [PathArg(c.out)])
    ensures c.burnIn == burnIn && c.isTree == isTree
  {
    if |rest| >= 2 && rest[0] == Word("-resample") && ReadInt(rest[1]).Some? {
      ReadCombinerPathsExact(rest[2..], burnIn, isTree, ReadInt(rest[1]), c);
      ReadIntCanonical(rest[1], c.resample.value);
      assert rest == rest[..2] + rest[2..];
    } else {
      ReadCombinerPathsExact(rest, burnIn, isTree, None, c);
    }
  }

  /** A command line the combiner reader accepts has the fixed head with
      the burn-in as `str()` writes it, and a tail the tail reader accepts. */
  lemma ReadCombinerHeadExact(argv: seq<Arg>, c: CombinerCall)
    requires ReadCombiner(argv) == Some(c)
    ensures |argv| >= 3 && argv[0] == Word("logcombiner") && argv[1] == Word("-burnin") && argv[2] == Word(IntToString(c.burnIn))
    ensures var rest := argv[3..];
      var flagged := |rest| > 0 && rest[0] == Word("-trees");
      ReadCombinerTail(if flagged then rest[1..] else rest, c.burnIn, flagged) == Some(c)
  {
    ReadIntCanonical(argv[2], ReadInt(argv[2]).value);
  }

  /** Reassembles a combiner command line from its head, tree switch and tail. */
  lemma CombinerFromParts(argv: seq<Arg>, flagged: bool, c: CombinerCall)
    requires |argv| >= 3 && argv[0] == Word("logcombiner") && argv[1] == Word("-burnin") && argv[2] == Word(IntToString(c.burnIn))
    requires flagged == (|argv| > 3 && argv[3] == Word("-trees")) && c.isTree == flagged
    requires flagged ==> argv[4..] == ResampleFlag(c.resample) + (PathArgs(c.files) + [PathArg(c.out)])
    requires !flagged ==> argv[3..] == ResampleFlag(c.resample) + (PathArgs(c.files) + [PathArg(c.out)])
    ensures argv == CombinerArgv(c.files, c.out, c.burnIn, c.isTree, c.resample)
  {
    var head := [Word("logcombiner"), Word("-burnin"), Word(IntToString(c.burnIn))];
    var tail := ResampleFlag(c.resample) + (PathArgs(c.files) + [PathArg(c.out)]);
    assert argv == head + argv[3..] by {
      assert argv[..3] == head;
    }
    assert argv[3..] == TreesFlag(c.isTree) + tail by {
      if flagged {
        assert argv[3..] == [argv[3]] + argv[4..];
      } else {
        assert argv[3..] == [] + tail;
      }
    }
  }

  /** No other command line reads back as the planned combiner call: the
      burn-in and resample texts are exactly what `str()` writes. */
  lemma ReadCombinerExact(argv: seq<Arg>, files: seq<FileRef>, out: FileRef, burnIn: int, isTree: bool, resample: Option<int>)
    requires ReadCombiner(argv) == Some(CombinerCall(files, out, burnIn, isTree, resample))
    ensures argv == CombinerArgv(files, out, burnIn, isTree, resample)
  {
    var c := CombinerCall(files, out, burnIn, isTree, resample);
    ReadCombinerHeadExact(argv, c);
    var rest := argv[3..];
    var flagged := |rest| > 0 && rest[0] == Word("-trees");
    var tail := if flagged then rest[1..] else rest;
    ReadCombinerTailExact(tail, burnIn, flagged, c);
    assert flagged ==> tail == argv[4..];
    CombinerFromParts(argv, flagged, c);
  }

  // -------------------------------------------------------- treeannotator

  /** The annotator's command line: burn-in, input trees, output tree. */
  function AnnotatorArgv(burnIn: int, trees: FileRef, out: FileRef): (argv: seq<Arg>)
    ensures |argv| == 5
  {
    [Word("treeannotator"), Word("-burnin"), Word(IntToString(burnIn)), PathArg(trees), PathArg(out)]
  }

  /** What a `treeannotator` command line asks for. */
  datatype AnnotatorCall = AnnotatorCall(burnIn: int, trees: FileRef, out: FileRef)

  function ReadAnnotator(argv: seq<Arg>): Option<AnnotatorCall> {
    if |argv| != 5 || argv[0] != Word("treeannotator") || argv[1] != Word("-burnin")
       || !argv[3].PathArg? || !argv[4].PathArg? then None
    else match ReadInt(argv[2])
      case None => None
      case Some(b) => Some(AnnotatorCall(b, argv[3].file, argv[4].file))
  }

  lemma ReadAnnotatorArgv(burnIn: int, trees: FileRef, out: FileRef)
    ensures ReadAnnotator(AnnotatorArgv(burnIn, trees, out)) == Some(AnnotatorCall(burnIn, trees, out))
  {
    ParseIntToString(burnIn);
  }

  /** No other command line reads back as the planned annotator call. */
  lemma ReadAnnotatorExact(argv: seq<Arg>, burnIn: int, trees: FileRef, out: FileRef)
    requires ReadAnnotator(argv) == Some(AnnotatorCall(burnIn, trees, out))
    ensures argv == AnnotatorArgv(burnIn, trees, out)
  {
    ReadIntCanonical(argv[2], burnIn);
  }
}
