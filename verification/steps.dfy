/** What a planner emits instead of touching the file system or spawning a
    process: an ordered list of steps, and what the files hold afterwards. */
module Steps {
  import opened Wrappers
  import opened Plan
  import opened Commands

  /** One externally visible effect, in the order the plugin performs it. */
  datatype Step =
    | Render(template: string, dst: FileRef)   // fill a packaged XML template and write it to `dst`
    // run a binary synchronously, failing on a non-zero exit; `output` is the
    // file it is told to write (a sampler run writes into its working directory instead)
    | Exec(argv: seq<Arg>, inResultDir: bool, output: Option<FileRef>)
    | Combine(call: CombinerCall)              // one `logcombiner` run, see `CombinerArgv`
    | CopyFile(src: FileRef, dst: FileRef)
    | WriteText(dst: FileRef, text: string)

  /** Does `step` start a process? */
  predicate Spawns(step: Step) {
    step.Exec? || step.Combine?
  }

  /** The command line of a process step. */
  function ArgvOf(step: Step): seq<Arg>
    requires Spawns(step)
  {
    match step
    case Exec(argv, _, _) => argv
    case Combine(c) => CombinerArgv(c.files, c.out, c.burnIn, c.isTree, c.resample)
  }
  /** What a file holds after a plan has run. */
  datatype Content =
    | Rendered(template: string)
    | CopyOf(src: FileRef)
    | Text(text: string)
    | ToolOutput(step: Step)  // written by the process `step` starts

  /** The number of processes a plan spawns. */
  function ExecCount(steps: seq<Step>): (n: nat)
    ensures n <= |steps|
  {
    if |steps| == 0 then 0
    else ExecCount(steps[..|steps| - 1]) + (if Spawns(steps[|steps| - 1]) then 1 else 0)
  }

  lemma {:induction false} ExecCountAppend(a: seq<Step>, b: seq<Step>)
    ensures ExecCount(a + b) == ExecCount(a) + ExecCount(b)
    decreases |b|
  {
    if |b| == 0 {
      assert a + b == a;
    } else {
      assert (a + b)[..|a + b| - 1] == a + b[..|b| - 1];
      ExecCountAppend(a, b[..|b| - 1]);
    }
  }

  /** A plan made only of process steps spawns one process per step. */
  lemma {:induction false} ExecCountAll(steps: seq<Step>)
    requires forall k :: 0 <= k < |steps| ==> Spawns(steps[k])
    ensures ExecCount(steps) == |steps|
  {
    if |steps| > 0 {
      var init := steps[..|steps| - 1];
      assert forall k :: 0 <= k < |init| ==> init[k] == steps[k];
      ExecCountAll(init);
    }
  }

  /** Does `step` (over)write `dst`? */
  predicate Writes(step: Step, dst: FileRef) {
    match step
    case Render(_, d) => d == dst
    case Exec(_, _, output) => output == Some(dst)
    case Combine(c) => c.out == dst
    case CopyFile(_, d) => d == dst
    case WriteText(d, _) => d == dst
  }

  function ContentOf(step: Step): Content {
    match step
    case Render(template, _) => Rendered(template)
    case Exec(_, _, _) => ToolOutput(step)
    case Combine(_) => ToolOutput(step)
    case CopyFile(src, _) => CopyOf(src)
    case WriteText(_, text) => Text(text)
  }

  /** The content of `dst` after `steps`: that of the last step writing it. */
  function FinalContent(steps: seq<Step>, dst: FileRef): Option<Content> {
    if |steps| == 0 then None
    else if Writes(steps[|steps| - 1], dst) then Some(ContentOf(steps[|steps| - 1]))
    else FinalContent(steps[..|steps| - 1], dst)
  }

  /** A file has no content after a plan exactly when no step writes it. */
  lemma {:induction false} FinalContentNone(steps: seq<Step>, dst: FileRef)
    ensures FinalContent(steps, dst).None? <==> forall k :: 0 <= k < |steps| ==> !Writes(steps[k], dst)
  {
    if |steps| > 0 && !Writes(steps[|steps| - 1], dst) {
      var init := steps[..|steps| - 1];
      FinalContentNone(init, dst);
      assert forall k :: 0 <= k < |init| ==> init[k] == steps[k];
    }
  }

  /** A file's content after a plan is that of a step writing it, and no
      later step writes it. */
  lemma {:induction false} FinalContentWriter(steps: seq<Step>, dst: FileRef)
    requires FinalContent(steps, dst).Some?
    ensures exists k :: && 0 <= k < |steps| && Writes(steps[k], dst)
                        && FinalContent(steps, dst) == Some(ContentOf(steps[k]))
                        && forall j :: k < j < |steps| ==> !Writes(steps[j], dst)
  {
    var n := |steps|;
    if Writes(steps[n - 1], dst) {
      assert FinalContent(steps, dst) == Some(ContentOf(steps[n - 1]));
    } else {
      var init := steps[..n - 1];
      assert FinalContent(steps, dst) == FinalContent(init, dst);
      FinalContentWriter(init, dst);
      var k :| && 0 <= k < |init| && Writes(init[k], dst)
               && FinalContent(init, dst) == Some(ContentOf(init[k]))
               && forall j :: k < j < |init| ==> !Writes(init[j], dst);
      assert init[k] == steps[k];
      assert forall j :: k < j < n - 1 ==> init[j] == steps[j];
    }
  }

  lemma ExecCountCons(s: Step, steps: seq<Step>)
    ensures ExecCount([s] + steps) == (if Spawns(s) then 1 else 0) + ExecCount(steps)
  {
    ExecCountAppend([s], steps);
    assert [s][..0] == [];
  }
}
