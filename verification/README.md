# q2-beast invocation planning, modelled in Dafny

q2-beast is a QIIME 2 plugin that drives the BEAST phylogenetics toolchain.
It templates a BEAST control file from sample metadata and runs `beast`. It
merges posterior chains with `logcombiner`, summarises a chain with
`treeannotator`, and draws a trace plot with a burn-in slider.

This project models every public method as a pure **planner**. A planner
takes the run parameters and returns either an error or a plan. A plan is the
data handed to the control-file template plus an ordered list of steps:
render a template, run a process, copy a file, write a text file.
Process steps carry the exact argument vector. Files are named symbolically
(`ChainFile(i, name)`, `Scratch(i, name)`, `ResultFile(name)`, `FreshNexus`)
because the host framework chooses every directory and temporary path.

Modules, in dependency order:

- `Wrappers` (`wrappers.dfy`): `Option` and `Result`.
- `Decimal` (`decimal.dfy`): Python's `str()` of an integer, with a reader and a round-trip lemma.
- `Layout` (`layout.dfy`): the chain directory's file names. It also holds a chain's identity, which is its control-file checksum.
- `Plan` (`plan.dfy`): symbolic files, argument-vector elements, and the errors.
- `Commands` (`commands.dfy`): the `beast`, `logcombiner` and `treeannotator` command lines. Each has a reader that recovers the call from the argument vector.
- `Steps` (`steps.dfy`): plan steps, the number of processes a plan starts, and what each file holds after a plan.
- `Sampler` (`sampler.dfy`): `gtr_single_partition` and `site_heterogeneous_hky`.
- `Merge` (`merge.dfy`): `merge_chains` with `_log_combiner`, and `maximum_clade_credibility`.
- `Trace` (`trace.dfy`): `traceplot`.

Behaviour of the code that the model keeps as written:

- Sample rows are matched with `pd.concat(..., join='inner')`, which only intersects the sample ids. A NaN cell of a surviving row is kept and becomes `None` (`Sampler.JoinGtr`, `Sampler.Clean`).
- `resample` is forwarded to `logcombiner` as given, including 0. Nothing checks it against the sampling interval.
- The trace plot reads the log of the first chain only, after checking that all chains are compatible.
- An empty `burn_in` list is not rejected explicitly. It fails at the lookup `burn_in[0]`, after the checksum check. This is the `NoBurnIn` error.
- An empty chain list fails at the lookup `chains[0]`. This is the `NoChains` error. In `merge_chains` that lookup comes after the burn-in length check.
- `site_heterogeneous_hky` declares the uncertainty column optional but reads it unconditionally, after the GPU check. A call without it fails there. This is the `NoUncertaintyColumn` error.

## Model

| member | source | states |
|---|---|---|
| Decimal.ParseIntToString | q2_beast/methods.py:49-50 | Every integer the plugin writes into a command line with `str()` reads back as the same integer, so distinct counts give distinct arguments. |
| Decimal.ParseIntExactly | q2_beast/methods.py:49-50 | A text reads back as an integer exactly when it is that integer's `str()`. Zero-padded texts such as `07`, a bare `-` and `-0` are refused, so the reader and `str()` are inverse bijections. |
| Decimal.IntToString | q2_beast/methods.py:168 | `str()` of an integer is in canonical form. A non-negative value is all digits, with a leading `0` only for 0 itself. A negative value is a minus sign followed by digits that start with a non-zero digit. |
| Layout.FileNameInjective | q2_beast/formats.py:28-33 | The log, trees, operator and control files of a posterior directory are stored under four distinct names. |
| Layout.SingleChecksumIffShared | q2_beast/methods.py:183-188 | The test "the set of control-file checksums has at most one element" holds exactly when every pair of chains has byte-identical control files. |
| Commands.BeastArgv | q2_beast/methods.py:43-96 | The sampler command line has six elements. It starts with `beast`, has `-beagle_instances` in fourth place, and ends with the control file. |
| Commands.ReadBeastArgv | q2_beast/methods.py:43-50 | Reading the `beast` command line back gives the requested backend (GPU with cuda, or CPU with SSE) and the control file. A GPU run always has one instance. A CPU run has one instance per requested thread. The reader accepts only the canonical text of an integer, and `ReadBeastExact` gives the converse. |
| Commands.ReadBeastExact | q2_beast/methods.py:43-50 | Any argument vector that reads back as a planned `beast` call is exactly the planned vector, including the instance count as `str(n_threads)` writes it. |
| Commands.CombinerArgv | q2_beast/methods.py:167-174 | The combiner command line has 4 + inputs elements, plus 1 with `-trees` and 2 with `-resample`. Its last element is the output path. |
| Commands.ReadCombinerArgv | q2_beast/methods.py:167-174 | Reading the combiner command line back gives exactly the planned call: burn-in, `-trees` iff a tree file, `-resample` iff a resample value is given, the inputs in their order, and the output last. The reader accepts only the canonical text of an integer, and `ReadCombinerExact` gives the converse. |
| Commands.ReadCombinerExact | q2_beast/methods.py:167-174 | Any argument vector that reads back as a planned combiner call is exactly the planned vector, with the burn-in and resample texts as `str()` writes them. |
| Commands.ReadAnnotatorArgv | q2_beast/methods.py:225-226 | The annotator command line reads back as burn-in, input trees and output tree, in that order. The reader accepts only the canonical text of an integer, and `ReadAnnotatorExact` gives the converse. |
| Commands.ReadAnnotatorExact | q2_beast/methods.py:224-226 | Any argument vector that reads back as a planned annotator call is exactly the planned vector, with the burn-in text as `str(burn_in)` writes it. |
| Sampler.Clean | q2_beast/methods.py:74 | A joined cell becomes `None` exactly when it is NaN. Otherwise it keeps its value. |
| Sampler.Blank | q2_beast/methods.py:66-68 | Without an uncertainty column, a column with the time column's ids and only missing values stands in for it. |
| Sampler.Settings | q2_beast/methods.py:56-91 | The run settings name the trees, ops and log files `posterior.trees`, `posterior.ops` and `posterior.log`. They carry the given generation count and sampling interval, and the time unit `years`. An absent `print_every` becomes `sample_every`; a given one passes through unchanged. |
| Sampler.JoinGtr | q2_beast/methods.py:70-75 | Rows exist for exactly the ids present in all three columns (an inner join). Each row's cells come from that id's own cells. |
| Sampler.RunShape | q2_beast/methods.py:93-99 | A sampler run renders the control file first. It then runs `beast` in the result directory, with the requested backend and thread count and the control file last. |
| Sampler.PlanGtr | q2_beast/methods.py:38-99 | The run fails iff skygrid lacks its duration or interval count, or the GPU is requested with a thread count other than 1. The skygrid error takes precedence, and a failure yields no plan. A success renders the template and then runs `beast` with the right backend. Its run settings are `Settings` of the given generation count, sampling interval and `print_every`. Its rows are exactly the inner join of the alignment, time and uncertainty columns, with a blank uncertainty column when none is given. It passes the model choices through. |
| Sampler.GtrSampleIds | q2_beast/methods.py:64-71 | An accepted run has a row for exactly the samples present in the alignment, the time column and, when given, the uncertainty column. |
| Sampler.DefaultsNeedSkygrid | q2_beast/methods.py:31-40 | A call with every optional argument left at its default is refused, because the default coalescent model is skygrid and its parameters default to absent. |
| Sampler.GtrRowCells | q2_beast/methods.py:64-75 | Each row's sequence and time cell is `None` exactly when that sample's cell is missing, and otherwise holds that sample's value. The uncertainty is `None` for every row when no uncertainty column is given. Otherwise it is `None` exactly when the sample's uncertainty is missing, and otherwise holds it. |
| Sampler.JoinHky | q2_beast/methods.py:139-144 | Rows exist for exactly the ids present in all four columns, with each id's own cells. |
| Sampler.PlanHky | q2_beast/methods.py:115-162 | There is no skygrid check. The run fails iff the GPU is requested with a thread count other than 1, or no uncertainty column is given. The GPU error comes first. A success renders the orf/nc template and then runs `beast`. Its run settings are `Settings` of the given generation count, sampling interval and `print_every`. Its rows are exactly the inner join of the orf, nc, time and uncertainty columns. |
| Sampler.HkySampleIds | q2_beast/methods.py:139-144 | An accepted run has a row for exactly the samples present in the orf, nc, time and uncertainty columns. |
| Sampler.HkyRowCells | q2_beast/methods.py:139-144 | Each row's orf, nc, time and uncertainty cell is `None` exactly when that sample's cell is missing, and otherwise holds that sample's value. |
| Merge.StripBurnIns | q2_beast/methods.py:194-199 | For each chain in order: one combine of its log, then one of its trees. Each uses that chain's own burn-in and no resample, and writes that chain's intermediate file. |
| Merge.PlanMerge | q2_beast/methods.py:178-215 | A burn-in list longer than one that does not match the chain count is rejected first. Then an empty chain list is rejected, then chains with differing checksums, then an empty burn-in list. Otherwise the plan is as follows. With per-chain burn-ins it strips each chain, copies the first chain's control file, writes an empty ops file, and combines all intermediates with burn-in 0 and the given resample. With one burn-in it combines the original files once with it. |
| Merge.ShapeContents | q2_beast/methods.py:206-215 | After the plan runs, the result's control file is a copy of the first chain's and its ops file is empty. No combiner run overwrites either file. |
| Merge.MergedChainIdentity | q2_beast/methods.py:183-208 | The merged chain's control-file checksum equals every input chain's checksum. Its ops file is empty. |
| Merge.MergeCallCount | q2_beast/methods.py:190-215 | An accepted merge starts 2·N + 2 combiner processes with per-chain burn-ins and exactly 2 with a shared burn-in. |
| Merge.ShapeResample | q2_beast/methods.py:196-215 | In a merge plan every process is a combiner run. Only the last two carry the resample value. All earlier runs have none. |
| Merge.ResampleOnlyAtTheEnd | q2_beast/methods.py:190-215 | The same holds for every accepted `merge_chains` call: resample is forwarded only on the two final combines. |
| Merge.PlanMcc | q2_beast/methods.py:220-227 | The summary is a single annotator process. It reads back as the given burn-in, then the chain's trees file, then the fresh output tree; by `ReadAnnotatorExact` that fixes its argument vector, burn-in text included. |
| Trace.PlanTrace | q2_beast/visualizations.py:9-25 | An empty chain list fails, then chains with differing checksums, then a log with fewer than two rows. A single chain or identical checksums pass. The slider runs from 0 to the last `state`, steps by the last `state` minus the one before, and starts at 0. |
| Trace.AtLeast | q2_beast/visualizations.py:31-32 | The kept rows are exactly the log's rows with `state` at least the burn-in. There are never more of them than rows. |
| Trace.AtLeastCounts | q2_beast/visualizations.py:31-38 | The filter keeps each log row with `state` at least the burn-in exactly as many times as the log holds it, and drops every other row. |
| Trace.ViewAt | q2_beast/visualizations.py:26-38 | The line and the histogram show the same rows, exactly those with `state` at least the selected burn-in. The histogram counts each such row as often as the log holds it, and no other row. |
| Trace.AtLeastKeepsAll | q2_beast/visualizations.py:31-32 | A burn-in at or below every logged generation hides no row and keeps the log order. |
| Trace.AtLeastTwice | q2_beast/visualizations.py:31-38 | Filtering by one burn-in and then another equals filtering once by the larger. |
| Trace.InitialViewShowsAll | q2_beast/visualizations.py:22-32 | At the slider's initial position, a log of non-negative generations appears in full in both the line and the histogram. |
| Trace.SliderMatchesRegularLog | q2_beast/visualizations.py:19-23 | On a log sampled every d generations from 0, the slider steps by d up to the last generation. Its positions are exactly the logged generations. |

## Left out

- Running processes: every `subprocess.run` becomes a plan step. Exit codes, timeouts and the outputs of `beast`, `logcombiner` and `treeannotator` belong to those tools.
- Template rendering: the XML templates are not part of this model. Only the keyword arguments and sample rows handed to them are modelled.
- Sample order: the template receives a list of rows in pandas' order. The model keeps the rows in a map keyed by sample id, so it states which rows exist and what they hold, but not their order.
- MD5: a control-file checksum is an opaque string compared for equality. Equal checksums mean byte-identical files, not equivalent models.
- Chart composition and output: altair charts, HTML and JSON output, and CSV parsing of the log are library behaviour. The model keeps the slider bounds and the row filter that both layers apply. A log row holds only `state` and `likelihood`; the other columns are not modelled.
- Trace.PlanTrace: does not model how the log table is read from the first chain's directory. The table is a parameter.
- Registration and types: the plugin registration and the semantic types are configuration. The parameter ranges declared there (non-zero thread counts, non-negative burn-ins and resample values) are not needed as preconditions. The planners handle every integer the way `str()` does.
- Error messages: the exceptions the source raises (a `ValueError`, an `IndexError` on an empty list, an attribute error on a missing uncertainty column) become constructors of one error type. The message text is not modelled.
- Resample validation: the code never checks that `resample` is a positive multiple of the sampling interval. The model forwards any value, as the code does.
- Merge.PlanMerge: the fresh temporary and result files the framework allocates are modelled as symbolic names (`Scratch(i, name)`, `ResultFile(name)`), not as paths.
- Merge.PlanMcc: takes the burn-in as an argument; the Python default of 0 for an omitted `burn_in` is a call convention, and `PlanMcc(0)` is that call.
- Merge.PlanMcc: the output is the fresh stand-alone tree file `FreshNexus`. Its later packaging into a directory is framework behaviour.
