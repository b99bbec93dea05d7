# Constrained-MD post-processing: a verified model

This project models the sequential logic of three molecular-dynamics
post-processing scripts in Dafny and proves properties about it.

- **REPORT scanner and segment aggregation** (`constrained_force_stats.py`,
  module `ForceStats`). Each line of a `REPORT` file is tested for three
  markers:
  - a `b_m` line appends its second whitespace token as a lambda value;
  - a `cc>` line appends its third token as a force, and a token that is not
    a number is dropped;
  - an `MD step No.` line counts one MD step.

  The segments `RUN_<n>` are read in ascending `n`, then `.`. Their results
  are concatenated and the step counts summed. The series of one constraint
  is every N-th lambda value (`[k::N]`), where N is the number of lines of
  `ICONST`.
- **Force-statistics reader and activation-barrier area** (`pmf_analysis.py`,
  module `PmfAnalysis`).
  - `read_force_stats` reads a report by fixed line index. With a target
    step count, the last matching cumulative row wins.
  - The rows of all folders are collected and sorted by bond length.
  - `calculate_area` finds the sign changes of the mean force, interpolates
    the first two roots and snaps them to the nearest samples. It returns
    the absolute trapezoidal sum between those samples.
  - The barrier uncertainty is half the spread of the areas of the force
    shifted by plus and minus one standard deviation.
- **Frame selection** (`xdatcar_frame_selector.py`, module `FrameSelector`).
  For each target bond length, the candidates are the frames within the
  initial tolerance, or else within the secondary tolerance. The first frame
  with the smallest key distance (atom1-atom2, or atom1-atom3) is recorded
  with its atom1-atom2 distance.

Helper modules:

- `Prelude`: `Option`, `Result`, and the Python exceptions the scripts can
  raise.
- `Text`: `str.split()`, `str.split(sep)`, `str.strip()`, the substring
  test, and reading a file line by line.
- `Numeric`: `abs`, `np.sign`, `np.argmin`, `scipy.integrate.trapz` and
  `np.around(v, 2)`, all over exact reals.
- `Sorting`: sorting by a numeric key.

Modelling choices:

- Files are given as their decoded text with universal newlines already
  translated (`\n` is the only line ending), and directories as maps from folder name
  to file text. A folder missing from the map means the file does not
  exist.
- Float and integer parsing are the function parameters `parse`/`parseReal`
  and `parseInt`. They return `None` where Python raises `ValueError`.
- Interatomic distances (ASE's `get_distance(..., mic=True)`) are the
  function parameter `distance`.
- The quadratic-fit fallback of `calculate_area` is two function parameters:
  the fitted roots and the fitted integral.
- An uncaught Python exception becomes `Err(...)`, and the first one raised
  wins.

The constraint series is sliced from the `b_m` (lambda) list, not from
the `cc>` force list (constrained_force_stats.py:49). The `main` of
`constrained_force_stats.py` calls `glob` and `np`, which it never imports.
Only its logic is modelled.

## Model

| member | source | states |
|---|---|---|
| `ForceStats.ReadSimulationData` | postdoc_scripts/constrained_force_stats.py:7-24 | The loop over the file's lines returns exactly `Scan` of those lines. The lines are taken in file order, and the first uncaught exception ends the read. |
| `ForceStats.ReadLine` | postdoc_scripts/constrained_force_stats.py:14-22 | For a line that raises nothing, the accumulators grow by exactly that line's contribution. A `b_m` line adds its bias value, a `cc>` line its force when the token is a number, and a `MD step No.` line one step. |
| `ForceStats.LineRunOk` | postdoc_scripts/constrained_force_stats.py:13-22 | A line that raises nothing contributes one lambda if it holds `b_m`, one force if it holds `cc>` and its third token parses, and one step if it holds `MD step No.`. The three tests are independent. |
| `ForceStats.LineRunErr` | postdoc_scripts/constrained_force_stats.py:14-20 | A `b_m` line whose second token is missing or not a number raises that exception. A `cc>` line with fewer than three tokens raises IndexError, which is not caught. No other line raises. |
| `ForceStats.ScanSucceeds` | postdoc_scripts/constrained_force_stats.py:13-22 | The scan succeeds if and only if every line can be scanned without an exception. |
| `ForceStats.ScanCountsSteps` | postdoc_scripts/constrained_force_stats.py:21-22 | The step count equals the number of lines that contain `MD step No.`. |
| `ForceStats.ScanBiasValues` | postdoc_scripts/constrained_force_stats.py:14-15 | There is exactly one lambda per `b_m` line, in line order. Lambda j is the parse of the second token of the j-th `b_m` line. |
| `ForceStats.ScanForceValues` | postdoc_scripts/constrained_force_stats.py:16-20 | The forces are the parsable third tokens of the `cc>` lines, in line order. |
| `ForceStats.DroppedForceLine` | postdoc_scripts/constrained_force_stats.py:16-20 | A `cc>` line whose force token does not parse, and which has no other marker, leaves the result as if the line were absent. Scanning continues after it. |
| `ForceStats.MarkersIndependent` | postdoc_scripts/constrained_force_stats.py:14-22 | One line with all three markers contributes a lambda, a force and a step. |
| `ForceStats.ScanAppend` | postdoc_scripts/constrained_force_stats.py:13-22 | Scanning two stretches of lines one after the other is the same as scanning their concatenation. |
| `ForceStats.GetFileLineCount` | postdoc_scripts/constrained_force_stats.py:1-5 | A non-empty file yields its number of newlines, plus one when it does not end in a newline. An empty file raises UnboundLocalError. |
| `ForceStats.FirstBadSegment` | postdoc_scripts/constrained_force_stats.py:36 | Returns the position of the first `RUN_*` name whose `int(name.split('_')[1])` raises. Every earlier name converts. |
| `ForceStats.FolderOrder` | postdoc_scripts/constrained_force_stats.py:36 | Succeeds exactly when every segment number converts. The result is a permutation of the `RUN_*` names in ascending segment number, followed by `.`. |
| `ForceStats.Aggregate` | postdoc_scripts/constrained_force_stats.py:43-47 | The accumulating loop returns `Aggregated`: the per-folder results joined in folder order, with step counts summed. A missing REPORT or a raising folder ends it. |
| `ForceStats.AggregatedIsOneScan` | postdoc_scripts/constrained_force_stats.py:43-47 | Concatenating the per-folder lists and summing their counts equals scanning all folders' lines as one file, in folder order. |
| `ForceStats.Stride` | postdoc_scripts/constrained_force_stats.py:49 | `xs[k::n]` has `(len - 1 - k) / n + 1` elements, or none when k ≥ len. Element j is `xs[k + j*n]`. |
| `ForceStats.InterleaveAt` | postdoc_scripts/constrained_force_stats.py:49 | In a round-robin interleaving of N series, sample i of series k lands at position `i*N + k`. |
| `ForceStats.Deinterleave` | postdoc_scripts/constrained_force_stats.py:49 | Interleave N equal-length series round-robin, then take `[k::N]`: the result is series k exactly. |
| `ForceStats.ConstraintSeries` | postdoc_scripts/constrained_force_stats.py:31-49 | `main` up to the statistics. It fails exactly when ICONST is missing or empty, a segment name does not convert, or some folder fails. Otherwise it returns the `[k::N]` slice of the concatenated lambdas, N being the ICONST line count, with the total step count. |
| `Text.LinesConcat` | postdoc_scripts/constrained_force_stats.py:13 | Iterating a file line by line loses and adds nothing: the lines concatenate back to the text. |
| `Text.LinesCount` | postdoc_scripts/constrained_force_stats.py:3 | A file has as many lines as newlines, plus one if its last line has no newline. |
| `Text.LinesBreaks` | postdoc_scripts/constrained_force_stats.py:13 | Every line is non-empty with no newline before its last character, and every line but the last ends with its newline: lines break exactly at the newlines. |
| `Text.SplitTokens` | postdoc_scripts/constrained_force_stats.py:15 | `str.split()` returns non-empty tokens without whitespace. A line has no tokens exactly when it is blank. |
| `Text.SplitCons` | postdoc_scripts/constrained_force_stats.py:15 | Leading whitespace, then a maximal non-whitespace run, then the rest: `split()` yields that run followed by the tokens of the rest. Together with the blank case this fixes every token. |
| `Text.SplitOnJoin` | postdoc_scripts/pmf_analysis.py:25 | Joining the pieces of `s.split(':')` with `':'` gives back `s`. |
| `Text.SplitOnSingle` | postdoc_scripts/pmf_analysis.py:25 | `s.split(':')` has a single piece exactly when `s` has no colon, and that piece is `s` itself. |
| `Text.SplitOnPieces` | postdoc_scripts/pmf_analysis.py:25 | No piece of `s.split(':')` contains a colon. |
| `Text.StripPiece` | postdoc_scripts/pmf_analysis.py:25 | `s.strip()` is a contiguous piece of `s` with no whitespace at either end, and everything removed before and after it is whitespace. |
| `Numeric.ArgMin` | postdoc_scripts/xdatcar_frame_selector.py:57 | `np.argmin` returns an index of a smallest element, and no earlier element is as small. |
| `Numeric.Nearest` | postdoc_scripts/pmf_analysis.py:71-72 | `np.argmin(np.abs(x - c))` returns the first sample nearest to c. |
| `Numeric.NearestMonotone` | postdoc_scripts/pmf_analysis.py:71-72 | On ascending samples, a larger point never snaps to an earlier sample. |
| `Numeric.TrapzSplit` | postdoc_scripts/pmf_analysis.py:73 | The trapezoidal sum splits at any sample into the sums of the two sides. |
| `Numeric.TrapzLinear` | postdoc_scripts/pmf_analysis.py:73 | On a straight line the trapezoidal sum equals the exact integral. |
| `Numeric.TrapzNonNegative` | postdoc_scripts/pmf_analysis.py:73 | With ascending abscissas and non-negative ordinates, the sum is non-negative. |
| `Numeric.Round2` | postdoc_scripts/pmf_analysis.py:27 | `np.around(v, 2)` is a whole number of hundredths within 0.005 of v, strictly nearer than 0.005 unless v lies halfway, and at a halfway point the even hundredth. |
| `Sorting.SortBy` | postdoc_scripts/pmf_analysis.py:97 | The result is a permutation of the input in ascending key order. |
| `PmfAnalysis.FieldText` | postdoc_scripts/pmf_analysis.py:25 | `line.split(':')[1]` raises IndexError exactly when the line has no colon. |
| `PmfAnalysis.ReadForceStats` | postdoc_scripts/pmf_analysis.py:18-39 | Returns `ForceStatsOf` the file's lines. A file of at most two lines gives an empty stats mapping. |
| `PmfAnalysis.ReadCumulativeRows` | postdoc_scripts/pmf_analysis.py:32-37 | The loop over `lines[6:]` returns `ApplyRows` of the header stats and the rows' tokens. |
| `PmfAnalysis.ReadRow` | postdoc_scripts/pmf_analysis.py:33-37 | The loop body for one row equals `ApplyRow`. The first token of a 3-token row is converted even without a target, and a row for the target overwrites three fields. |
| `PmfAnalysis.RowsInertWithoutTarget` | postdoc_scripts/pmf_analysis.py:32-37 | Without a target no cumulative row changes the stats. The read fails exactly when some 3-token row's first token is not an integer. |
| `PmfAnalysis.LastMatchWins` | postdoc_scripts/pmf_analysis.py:32-37 | With a target, the read succeeds exactly when every row is readable. The last row for the target then sets mean force (negated), deviation and step count. With no such row, the stats are unchanged. |
| `PmfAnalysis.BondLength` | postdoc_scripts/pmf_analysis.py:24-25 | The CV is set exactly when the file has more than two lines. It is then the value after `':'` on the second line. |
| `PmfAnalysis.HeaderStatsWithoutTarget` | postdoc_scripts/pmf_analysis.py:26-29 | Without a target, a successful read needs at least five lines. The mean force is minus line 3 rounded to 2 decimals, the deviation is line 4 and the steps are line 5. |
| `PmfAnalysis.StatsWithTarget` | postdoc_scripts/pmf_analysis.py:32-37 | With a target, the last matching row sets the mean force, the deviation and MD steps = target. With no match they stay unset. |
| `PmfAnalysis.RowOf` | postdoc_scripts/pmf_analysis.py:88-91 | A table row is produced exactly when all four keys are set. Otherwise KeyError is raised. |
| `PmfAnalysis.CollectRows` | postdoc_scripts/pmf_analysis.py:84-91 | The folder loop returns `Collected`. Folders that do not match the pattern or have no report are skipped, and the first exception wins. |
| `PmfAnalysis.ReadFolderRow` | postdoc_scripts/pmf_analysis.py:87-91 | One folder's row is `FolderRow`: an exception from `read_force_stats` propagates, and a stats key that was never set raises KeyError. |
| `PmfAnalysis.CollectedRows` | postdoc_scripts/pmf_analysis.py:84-91 | A successful collection has one row per reporting folder, in folder order. Each row is that folder's report row. |
| `PmfAnalysis.SortedTable` | postdoc_scripts/pmf_analysis.py:97 | The table is a permutation of the collected rows, ascending by bond length. |
| `PmfAnalysis.TableAscending` | postdoc_scripts/pmf_analysis.py:97-100 | The bond lengths handed to the area computation are non-decreasing. |
| `PmfAnalysis.ZeroCrossings` | postdoc_scripts/pmf_analysis.py:43 | Returns exactly the indices i with sign(y[i]) ≠ sign(y[i+1]), strictly ascending. |
| `PmfAnalysis.ZeroSampleCrossesTwice` | postdoc_scripts/pmf_analysis.py:43 | An exact 0 between a negative and a positive sample gives two crossings. |
| `PmfAnalysis.FirstTwoCrossings` | postdoc_scripts/pmf_analysis.py:64-66 | The first two crossings used are the two leftmost sign changes. |
| `PmfAnalysis.Interpolate` | postdoc_scripts/pmf_analysis.py:46-47 | For a sign-change bracket the denominator y2 − y1 is non-zero. The root lies between x1 and x2, and equals the end whose sample is 0. |
| `PmfAnalysis.InterpolantVanishes` | postdoc_scripts/pmf_analysis.py:46-47 | The interpolated root is the zero of the chord through the two samples. |
| `PmfAnalysis.InterpolationExample` | postdoc_scripts/pmf_analysis.py:46-47 | Samples (1.0, −0.4) and (2.0, 0.6) give the root 1.4. |
| `PmfAnalysis.SnappedArea` | postdoc_scripts/pmf_analysis.py:71-73 | The absolute trapezoidal sum between the samples nearest the two roots is at least 0. It is 0 when the end sample lies before the start sample. |
| `PmfAnalysis.CrossingArea` | postdoc_scripts/pmf_analysis.py:64-74 | With two crossings, the roots are the linear-interpolation zeros of the two brackets (each inside its bracket, and the chord's zero by `InterpolantVanishes`), and the area is the non-negative snapped area between them. |
| `PmfAnalysis.QuadraticFallback` | postdoc_scripts/pmf_analysis.py:49-62 | An empty table raises TypeError (`np.polyfit` needs a non-empty `x`). Otherwise the fallback roots are the fitted roots sorted, an area exists exactly when there are at least two, and it is non-negative. |
| `PmfAnalysis.CalculateArea` | postdoc_scripts/pmf_analysis.py:42-76 | With fewer than two sign changes the fallback decides. Otherwise only the first two crossings are used. It fails (TypeError) exactly on an empty table. Any area is at least 0. |
| `PmfAnalysis.CrossingsExample` | postdoc_scripts/pmf_analysis.py:43 | The forces −1, 1, 1, −1 change sign after samples 0 and 2. |
| `PmfAnalysis.AreaExample` | postdoc_scripts/pmf_analysis.py:64-74 | Forces −1, 1, 1, −1 at 0, 1, 2, 3 give roots 0.5 and 2.5 and area 1. |
| `PmfAnalysis.RootsOrdered` | postdoc_scripts/pmf_analysis.py:64-73 | On a sorted table the two roots are ordered, and so are the samples they snap to. |
| `PmfAnalysis.CrossingRootsOrdered` | postdoc_scripts/pmf_analysis.py:64-73 | For two brackets `s < e` on ascending bond lengths, the interpolated roots are ordered, and so are their nearest samples. |
| `PmfAnalysis.Summarize` | postdoc_scripts/pmf_analysis.py:110-119 | The uncertainty is \|upper − lower\|/2 and is reported only when both shifted areas exist. Otherwise the "not enough zero crossings" result is given. Formatting a missing central area raises TypeError. Equilibrium distances are reported exactly when there are two roots, and they are the first two roots of the central curve. |
| `PmfAnalysis.SummarizeSymmetric` | postdoc_scripts/pmf_analysis.py:112 | Swapping the upper and lower areas does not change the summary. |
| `PmfAnalysis.Analyze` | postdoc_scripts/pmf_analysis.py:79-119 | The script collects, sorts by bond length, and computes the central area and the ±1-std areas, then summarizes them. A failed collection fails it with the same exception, and a table with no rows fails it with TypeError from the fit. |
| `FrameSelector.FramesWithinRange` | postdoc_scripts/xdatcar_frame_selector.py:21-34 | Returns every valid frame index with \|d − target\| < tol, and only those, strictly ascending. |
| `FrameSelector.RangeFilterExact` | postdoc_scripts/xdatcar_frame_selector.py:32-34 | Any ascending list of exactly the close frames equals the filter's result. |
| `FrameSelector.AscendingUnique` | postdoc_scripts/xdatcar_frame_selector.py:32-34 | Two strictly ascending index lists with the same elements are equal. |
| `FrameSelector.SecondaryOnlyWhenInitialEmpty` | postdoc_scripts/xdatcar_frame_selector.py:50-54 | The secondary tolerance is used only when no frame is within the initial one. The candidates are empty only when no frame is within either tolerance. |
| `FrameSelector.ArgMinFrame` | postdoc_scripts/xdatcar_frame_selector.py:57 | The arg-min over an ascending candidate list picks a candidate with the smallest key. Its key is strictly smaller than every earlier candidate's. |
| `FrameSelector.ChosenFrame` | postdoc_scripts/xdatcar_frame_selector.py:50-59 | A target gets an entry exactly when some frame is within either tolerance. The chosen frame is the first candidate minimising the key distance. The recorded distance is its atom1-atom2 distance, within the initial tolerance, or else within the secondary one when nothing is within the initial one. |
| `FrameSelector.FrameForTarget` | postdoc_scripts/xdatcar_frame_selector.py:50-59 | The body for one target returns that target's `Choose` outcome, whose properties `ChosenFrame` states. |
| `FrameSelector.Present` | postdoc_scripts/xdatcar_frame_selector.py:56-61 | Gives the strictly ascending positions of the found outcomes. Entry j comes from the outcome at the j-th of these positions, and every found outcome has an entry. |
| `FrameSelector.EntriesAppend` | postdoc_scripts/xdatcar_frame_selector.py:59 | The entries of two outcome lists one after the other are the two entry lists concatenated. |
| `FrameSelector.SelectionAppend` | postdoc_scripts/xdatcar_frame_selector.py:48-63 | The output for two target lists in a row is the two outputs concatenated, so the output follows target order. |
| `FrameSelector.OnePerMatchedTarget` | postdoc_scripts/xdatcar_frame_selector.py:48-63 | There is at most one entry per target, in target order, and each entry is its target's choice. A target with no frame within either tolerance adds nothing. |
| `FrameSelector.TwoAtomRecordsMinimum` | postdoc_scripts/xdatcar_frame_selector.py:57-59 | In the two-atom variant, each recorded distance is the smallest atom1-atom2 distance among its target's candidates. |
| `FrameSelector.SameFrameForTwoTargets` | postdoc_scripts/xdatcar_frame_selector.py:48-63 | There is no deduplication: the targets 1.0 and 1.005 both select the single frame at 1.0. |
| `FrameSelector.FindTargetFramesBetweenTwoAtoms` | postdoc_scripts/xdatcar_frame_selector.py:36-63 | The loop returns `Selection` with key atom = atom2. |
| `FrameSelector.FindTargetFramesWithThirdAtom` | postdoc_scripts/xdatcar_frame_selector.py:65-93 | The loop returns `Selection` with key atom = atom3, recording the atom1-atom2 distance. |

## Left out

- `calculate_statistics` (constrained_force_stats.py:26-29) is left out. It calls `np.mean` and `np.std` on floats, so the model stops at the series it is given.
- Console messages (`print`) are not modelled. The dropped-force message is a comment where the value is dropped.
- All file and directory I/O is outside the model: `open`, `glob`, `os.path.isfile`, `os.makedirs`, ASE `read`/`write`. Files are text inputs, and directory listings are sequences of names in whatever order the file system gives.
- `Text.Lines`: a file's text is given as Python reads it after decoding and universal-newline translation (`open` in text mode turns `\r` and `\r\n` into `\n`), so `Lines` ends a line only at `\n`. The translation itself is not modelled: raw bytes with `\r` or `\r\n` line endings must be translated before they are handed to the model, or line counts and fixed line indices differ from Python's.
- Float and integer syntax is outside the model: parsing is a parameter. Floating-point rounding is not modelled, because all arithmetic is over exact reals.
- `np.polyfit`/`np.roots`/`np.linspace` in the quadratic fallback (pmf_analysis.py:49-62) are outside the model. The fitted roots and the fitted integral are parameters. The only failure of the fit that is modelled is the TypeError on an empty table; a rank-deficient fit (one or two rows) only warns in numpy and returns a result, as the parameters do.
- The results text and table formatting (pmf_analysis.py:113-127) and all plotting (pmf_analysis.py:129-145; xdatcar_frame_selector.py:110-142) are left out.
- `create_poscar_directories` (xdatcar_frame_selector.py:95-108) is left out: it rounds a float for a directory name and writes files.
- `compute_distance` (xdatcar_frame_selector.py:6-8) is never called and is left out.
- `calculate_atom_distances` (xdatcar_frame_selector.py:10-19) is left out. Its only caller is the plotting function `plot_atom_distances` (xdatcar_frame_selector.py:122). The frame filters read distances through the `distance` parameter directly.
- The hard-coded inputs of the two `main` functions are left out: `np.linspace` targets and atom indices (xdatcar_frame_selector.py:144-165).
- postdoc_scripts/plot_free_energy_diagram.py is not part of this model. Its only computation is a symbolic solve of a nonlinear system.
- `PmfAnalysis.SortedTable`: pandas' default sort is not stable, so equal bond lengths may come out in any order. The model fixes one order (input order), and the contract states only sortedness and permutation.
- `Sorting.SortBy`: stability (equal keys keep input order) is not stated, although the model's insertion sort is stable like Python's `sorted`.
