/** The vocabulary of plans: symbolic file references, argument-vector
    elements, and the errors a planner raises instead of producing a plan. */
module Plan {
  import opened Layout

  /** A file the plugin names without choosing its location (the host
      framework allocates every directory and temporary file). */
  datatype FileRef =
    | ChainFile(chain: nat, name: PosteriorFile)  // file `name` of the `chain`-th input chain
    | Scratch(chain: nat, name: PosteriorFile)    // fresh intermediate file made for the `chain`-th input chain
    | ResultFile(name: PosteriorFile)             // file `name` of the freshly allocated result directory
    | FreshNexus                                  // the fresh stand-alone tree file of an annotator run

  /** One element of an argument vector: literal text, or `str()` of a path. */
  datatype Arg = Word(text: string) | PathArg(file: FileRef)

  /** Every error a planner can raise; all are raised before any step runs. */
  datatype Error =
    | SkygridNotParameterized  // skygrid chosen without intervals or duration
    | GpuWithThreads           // GPU requested with a thread count other than 1
    | BurnInCountMismatch      // several burn-ins, but not one per chain
    | NoChains                 // the first chain is looked up in an empty list
    | IncompatibleChains       // control-file checksums differ
    | NoBurnIn                 // the first burn-in is looked up in an empty list
    | LogTooShort              // the log lacks the last two `state` values
    | NoUncertaintyColumn      // an absent uncertainty column is read as if present
}
