# Airfoil analysis core, modelled in Dafny

The repository studies low-speed airfoils. It does three things:

- generates section coordinates (NACA 4-digit and 5-digit sections from their formulas, and a
  tabulated 63-012A section);
- drives XFOIL through a generated command script and records the polars it writes;
- runs its own source-panel method for comparison: it reads a `.dat` outline, re-panels it,
  solves for the source strengths, evaluates surface and field pressure coefficients, and loads
  XFOIL polars back for plotting.

This project models that core as Dafny code and proves what the code promises.

| Dafny file | models |
|---|---|
| `naca.dfy` | `scripts/1_generate_naca_files.py`: designation decoding, cosine spacing, thickness, the 4-digit and 5-digit mean lines and the assembly of the closed outline |
| `naca_table.dfy` | the `NACA63012A_COORDS` table of the same script |
| `hardcoded.dfy` | `write_hardcoded` of the same script, and how `read_airfoil_dat` reads its output back |
| `xfoil_script.dfy`, `xfoil_analyzer.dfy` | `create_xfoil_script` and `parse_results` of `scripts/3_xfoil_analyzer.py` (`AirfoilCFDAnalyzer`) |
| `panel_geometry.dfy`, `panel_solver.dfy`, `panel_method.dfy` | `PanelMethodAirfoil` of `scripts/5_plots.py`: `.dat` reading, panelling, the linear system, surface and field velocities and pressures |
| `polar.dfy` | the polar-table reading shared by `load_xfoil_polar` and `parse_results` |
| `text.dfy`, `numerics.dfy`, `sorting.dfy`, `wrappers.dfy` | Python's `strip`/`split`/`join`/`in` on strings, the numpy helpers used (`linspace`, `isclose`, `radians`), sorting, and `Option` |

The model's conventions:

- **Transcendental functions.** `sqrt`, `sin`, `cos`, `atan`, `atan2` and `log` are the fields
  of an `Elementary` value passed to every member that needs them. `Lawful(E)` lists the only
  facts the proofs use:
  - `sqrt` is 0 at 0, 1 at 1, non-negative, and positive on positive arguments;
  - `cos 0 = 1`, `sin 0 = 0`, `atan 0 = 0` and `cos π = −1`;
  - cosine stays in [−1, 1].
- **π** is numpy's double constant 3.141592653589793, written as a real.
- **Parsing and formatting.** Python's `float(token)` is a parameter `parse: string -> Option<real>`,
  where `None` stands for the `ValueError`. The number formatting (`str(float)`, `:.6f`) is a
  parameter `show: real -> string`.
- **scipy calls.**
  - `interp1d(..., kind='cubic')` is a parameter `fit`. `Interpolates(fit)` says a fitted curve
    passes through its knots.
  - `linalg.solve` is a parameter `solve`. `SolverSound(solve)` says a returned vector solves the
    system.
- **Errors and missing files.** An exception that the source catches, and a missing file, become
  `None`, or the empty value the source stores in that case. Several exceptions the source does
  not catch are also modelled as `None` or an empty value; each is listed under "Left out".
- **Pandas frames.** A frame of polar rows is a `seq<PolarRow>`.
- **State.** The two classes with state are Dafny classes:
  - `PanelMethodAirfoil` holds `numPanels`;
  - `AirfoilCFDAnalyzer` holds the flight constants and the `results` dictionary, a `map` that
    `ParseResults` updates.
- **Arrays and loops.** Loops that fill numpy arrays are methods over Dafny arrays, and each is
  proved equal to a specification function:
  - the right-hand side, the influence matrix and the surface `Cp` of `solve_flow`;
  - the meshgrid and the panel-by-panel accumulation of `compute_flow_field`;
  - the mean-line loops of `naca4_digit` and `naca5_digit`.

## Model

| member | source | states |
|---|---|---|
| Text.Strip | scripts/5_plots.py:24 | the stripped line is empty exactly when the line is all whitespace; otherwise it starts and ends on a non-space character |
| Text.Split | scripts/5_plots.py:26 | `split()` yields only non-empty tokens without whitespace, and yields nothing exactly for a blank line |
| Text.ContainsAt | scripts/3_xfoil_analyzer.py:81 | the substring test `sub in s` holds exactly when `sub` occurs at some position of `s` |
| Text.SplitOnJoin | scripts/3_xfoil_analyzer.py:170 | splitting a `"\n".join` of lines that contain no line break gives the lines back |
| Text.JoinSplitOn | scripts/1_generate_naca_files.py:148 | joining the pieces of `split('\n')` with line breaks gives the original text back |
| Text.JoinLines | scripts/3_xfoil_analyzer.py:170 | the script text (joined commands plus a final line break) splits into each command's lines followed by one empty remainder |
| Text.SplitPair | scripts/1_generate_naca_files.py:149-150 | two tokens separated by one space split into exactly those two tokens |
| Numerics.Dist | scripts/5_plots.py:40 | the Euclidean distance is non-negative and zero exactly when both differences are zero |
| Numerics.Linspace | scripts/5_plots.py:99-100 | `np.linspace(a, b, n)` has n values, starting exactly at a and ending exactly at b |
| Numerics.LinspaceMonotone | scripts/5_plots.py:99-100 | an increasing range gives non-decreasing grid coordinates |
| Numerics.CosineSpacedRange | scripts/5_plots.py:47 | the cosine-spaced parameters `0.5(1 - cos β)` start at 0, end at 1 and stay in [0, 1] |
| Sorting.SortBy | scripts/5_plots.py:149 | the sorted rows are ordered by the key and are a permutation of the input |
| Sorting.SortedUnique | scripts/3_xfoil_analyzer.py:75-76 | with an injective key any two sorted permutations of the same multiset are equal, so the particular sorting algorithm does not matter |
| Sorting.SortDistinctStrict | scripts/3_xfoil_analyzer.py:215 | sorting rows whose keys are pairwise distinct gives a strictly increasing key order |
| Polar.LiftToDrag | scripts/5_plots.py:142 | `L/D` times `CD` gives back `CL` when `CD` is non-zero, and `L/D` is 0 when `CD` is zero |
| Polar.ParseRow | scripts/5_plots.py:137-143 | a line with fewer than five tokens gives no row; a row takes alpha, CL, CD and CM from tokens 0, 1, 2 and 4; with five or more tokens a row is missing only when one of those tokens fails to parse |
| Polar.FirstMarker | scripts/5_plots.py:134 | finds the first line containing `---`, and no line before it contains one |
| Polar.ScanIsTable | scripts/5_plots.py:132-144 | the line-by-line loop with its `parsing` flag gathers exactly the parsable, non-blank, non-marker lines after the first `---` line, and the flag is set exactly when such a marker exists |
| Polar.DataRowsAppend | scripts/5_plots.py:133-144 | reading one more line adds at most that line's row, at the end |
| Polar.DedupAlpha | scripts/3_xfoil_analyzer.py:215 | `drop_duplicates(subset=['alpha'])` leaves pairwise distinct angles, keeps only input rows, and keeps a row for every angle present |
| Polar.DedupKeepsFirst | scripts/3_xfoil_analyzer.py:215 | each kept row is the first row with its angle |
| Polar.StoredPolar | scripts/3_xfoil_analyzer.py:214-216 | the stored polar is strictly increasing in alpha, holds only first occurrences, and covers every angle that was read |
| Polar.StoredPolarEmpty | scripts/3_xfoil_analyzer.py:214-222 | the stored polar is empty exactly when no row was read |
| Polar.LoadedPolar | scripts/5_plots.py:123-152 | a missing file gives no polar; with a file, no polar exactly when no row was read; otherwise a non-empty alpha-sorted permutation of the rows read |
| Polar.StoredPolarOf | scripts/3_xfoil_analyzer.py:187-222 | a missing polar file stores an empty table; otherwise the deduplicated, sorted table of the file |
| PanelGeometry.DatLine | scripts/5_plots.py:23-31 | blank lines, lines with a letter and lines with fewer than two tokens are skipped; otherwise x comes from the first token, and y from the second or, when y fails to parse, the line contributes x alone |
| PanelGeometry.ColumnsLength | scripts/5_plots.py:29-31 | the x column exceeds the y column by exactly the number of lines whose y failed to parse |
| PanelGeometry.DatColumnsPaired | scripts/5_plots.py:19-32 | when no line is half-parsed the two columns have equal length and pair up into the points read, in file order |
| PanelGeometry.CloseContour | scripts/5_plots.py:36-38 | the outline keeps its points and gains the first point exactly when the ends are not `isclose`; afterwards the ends are `isclose` |
| PanelGeometry.CloseContourIdempotent | scripts/5_plots.py:36-38 | closing an already closed outline changes nothing |
| PanelGeometry.SegmentLengths | scripts/5_plots.py:40 | one non-negative length per segment, zero exactly for a repeated point |
| PanelGeometry.PartialSums | scripts/5_plots.py:41 | the cumulative arc length starts at 0 and grows by each segment length |
| PanelGeometry.PartialSumsZero | scripts/5_plots.py:41-42 | the total arc length is zero exactly when every segment is degenerate |
| PanelGeometry.ArcParameterMissing | scripts/5_plots.py:41-42 | the normalised parameter is undefined exactly when all points coincide |
| PanelGeometry.ArcParameterRange | scripts/5_plots.py:41-42 | the normalised arc parameter runs from 0 to 1 without decreasing |
| PanelGeometry.MakePanel | scripts/5_plots.py:52-58 | a panel keeps its end points, has its midpoint as control point, a length that is non-negative and zero exactly for coincident ends, the `atan2` angle, and a normal a quarter turn from it |
| PanelGeometry.PanelChain | scripts/5_plots.py:51-59 | one panel per consecutive pair of sample points |
| PanelGeometry.PanelChainChained | scripts/5_plots.py:51-59 | each panel ends where the next one starts |
| PanelGeometry.PanelsOf | scripts/5_plots.py:35-60 | a panelling has exactly `num_panels` panels, chained end to start |
| PanelGeometry.PanelsClosed | scripts/5_plots.py:36-48 | with an interpolating fit, the first panel starts at the first input point and the panelling closes up to `isclose` |
| PanelSolver.Rhs | scripts/5_plots.py:68-69 | one entry per panel, the negated freestream component along that panel's normal, so it depends on that panel alone |
| PanelSolver.SystemMatrix | scripts/5_plots.py:71-81 | the influence matrix is square in the panel count, with 0.5 on the diagonal; every off-diagonal entry whose column panel has a non-zero length is the influence of panel j on panel i's control point, which depends on those two panels alone |
| PanelSolver.InfluenceLogArgumentsPositive | scripts/5_plots.py:76-80 | the 1e-12 offsets keep both logarithm arguments of the influence coefficient strictly positive, even when a control point sits on a panel end |
| PanelSolver.PressureCoefficient | scripts/5_plots.py:90 | the surface pressure coefficient is at most 1, and equals 1 exactly at a stagnation point |
| PanelSolver.SolveFlowOf | scripts/5_plots.py:62-92 | there is a solution exactly when the system is finite and `linalg.solve` returns one, and then the strengths are what it returned; a solution keeps the panels, solves the influence system for the right-hand side, and gives each panel the `Cp` of its tangential speed |
| PanelSolver.SurfacePressures | scripts/5_plots.py:86-90 | one `Cp` per panel from its freestream tangential speed plus half its source strength |
| PanelSolver.LogArgumentPositive | scripts/5_plots.py:110-112 | the 1e-10 offset keeps both terms and the quotient under the logarithm strictly positive, even at a panel end point |
| PanelSolver.InducedZero | scripts/5_plots.py:115-116 | a panel of zero strength induces no velocity |
| PanelSolver.InducedAdditive | scripts/5_plots.py:115-116 | the induced velocity is additive in the source strength |
| PanelSolver.FieldFreestream | scripts/5_plots.py:103-117 | with all strengths zero the field is the uniform freestream `(cos α, sin α)` everywhere |
| PanelSolver.FieldSuperposition | scripts/5_plots.py:103-117 | the field of summed strengths is the sum of the two fields minus one freestream |
| PanelSolver.FieldPressure | scripts/5_plots.py:119-120 | the field pressure coefficient `1 - \|V\|²` is at most 1 |
| PanelMethod.PanelMethodAirfoil.ReadAirfoilDat | scripts/5_plots.py:19-33 | the columns read are those of the line-by-line reading of the file, and both are empty for an unreadable file |
| PanelMethod.PanelMethodAirfoil.CreatePanels | scripts/5_plots.py:35-60 | the panel loop builds exactly the panelling specified by `PanelsOf` |
| PanelMethod.PanelMethodAirfoil.AssembleRhs | scripts/5_plots.py:68-69 | the array filled by the loop is the right-hand side |
| PanelMethod.PanelMethodAirfoil.AssembleSystem | scripts/5_plots.py:71-81 | the n×n array filled by the double loop is the influence matrix |
| PanelMethod.PanelMethodAirfoil.SurfacePressure | scripts/5_plots.py:86-90 | the array filled by the loop holds each panel's `Cp` |
| PanelMethod.PanelMethodAirfoil.SolveFlow | scripts/5_plots.py:62-92 | the method returns exactly the specified flow solution, or none when the solve fails |
| PanelMethod.PanelMethodAirfoil.ComputeFlowField | scripts/5_plots.py:94-121 | the grids span x in [-0.5, 1.5] and y in [-0.6, 0.6]; each grid point holds the freestream plus every panel's induced velocity, its magnitude and its `Cp` |
| PanelMethod.PanelMethodAirfoil.LoadXfoilPolar | scripts/5_plots.py:123-152 | the loop returns exactly the loaded polar specified by `LoadedPolar` |
| PanelMethod.AccumulatePanels | scripts/5_plots.py:103-117 | after the panel loop, each grid point holds the full field velocity |
| PanelMethod.AddPanel | scripts/5_plots.py:107-117 | one pass of the panel loop adds that panel's contribution at every grid point |
| PanelMethod.MeshGrid | scripts/5_plots.py:101 | `meshgrid` repeats x along rows and y along columns |
| XfoilScript.FiltersPartition | scripts/3_xfoil_analyzer.py:75-76 | the non-negative and negative filters split the angle list: together a permutation of it, each with only its own sign |
| XfoilScript.SweepCenterOut | scripts/3_xfoil_analyzer.py:75-76 | the two sweeps together are a permutation of the requested angles, upwards from 0 and downwards from below 0 |
| XfoilScript.AscendingUpwards | scripts/3_xfoil_analyzer.py:75 | the positive sweep is non-negative and non-decreasing |
| XfoilScript.DescendingDownwards | scripts/3_xfoil_analyzer.py:76 | the negative sweep is negative and non-increasing |
| XfoilScript.MinOf | scripts/3_xfoil_analyzer.py:162 | `min` returns a member that is no larger than any other |
| XfoilScript.MaxOf | scripts/3_xfoil_analyzer.py:163 | `max` returns a member that is no smaller than any other |
| XfoilScript.ExtremesOrderFree | scripts/3_xfoil_analyzer.py:162-163 | the `ASEQ` bounds depend only on the multiset of angles |
| XfoilScript.AlfaCommands | scripts/3_xfoil_analyzer.py:124-125 | one `ALFA` command per angle, in order |
| XfoilScript.SixSeriesSetup | scripts/3_xfoil_analyzer.py:85-121 | the 6-series set-up is 27 commands that end by opening the polar and dump files |
| XfoilScript.StandardSetup | scripts/3_xfoil_analyzer.py:136-159 | the standard set-up is 21 commands that end by opening the polar and dump files |
| XfoilScript.Script | scripts/3_xfoil_analyzer.py:72 | the script is empty exactly for an empty angle list |
| XfoilScript.ScriptLines | scripts/3_xfoil_analyzer.py:170 | XFOIL reads exactly the commands' lines, in order, then an empty remainder |
| XfoilScript.SixSeriesLayout | scripts/3_xfoil_analyzer.py:78-131 | a 6-series script loads the section, runs the 6-series set-up (ending by opening the polar at commands 26 to 28), sweeps the non-negative angles upwards, re-initialises at 0, sweeps the negative angles downwards and closes; it has 34 commands plus one per angle |
| XfoilScript.StandardLayout | scripts/3_xfoil_analyzer.py:134-168 | a standard script loads the section, runs the standard set-up (no per-angle command, the polar opened at 20 to 22), then one sweep from the smallest to the largest angle in steps of 1, and closes: 27 commands |
| XfoilScript.ScriptOrderFree | scripts/3_xfoil_analyzer.py:64-170 | the script depends only on the multiset of requested angles, not their order |
| XfoilAnalyzer.AirfoilCFDAnalyzer.constructor | scripts/3_xfoil_analyzer.py:15-19 | a new analyzer has no results |
| XfoilAnalyzer.AirfoilCFDAnalyzer.CreateXfoilScript | scripts/3_xfoil_analyzer.py:64-170 | the command list built by appending, then joined, is the specified script |
| XfoilAnalyzer.AirfoilCFDAnalyzer.ParseResults | scripts/3_xfoil_analyzer.py:187-222 | only the entry for this airfoil changes, and it becomes the stored polar of the file (empty when the file is missing or no row parses) |
| XfoilAnalyzer.ReadPolarFields | scripts/3_xfoil_analyzer.py:203-212 | reading one data line gives the row `ParseRow` specifies, with `L/D` 0 when `CD` is 0 |
| XfoilAnalyzer.AppendSweep | scripts/3_xfoil_analyzer.py:124-131 | the `ALFA` appending loop adds exactly one command per angle, in order |
| Naca.ParseInt | scripts/1_generate_naca_files.py:30-32 | `int` of a digit string succeeds exactly on a non-empty string of digits |
| Naca.DecodeNaca4 | scripts/1_generate_naca_files.py:30-32 | a 4-digit designation decodes exactly when it has at least three characters, all digits; then camber ≤ 0.09, position ≤ 0.9 and thickness ≥ 0 |
| Naca.DecodeEncode4 | scripts/1_generate_naca_files.py:30-32 | decoding the designation `a b tt` gives camber a/100, position b/10 and thickness tt/100 |
| Naca.DecodeNaca5 | scripts/1_generate_naca_files.py:70 | the thickness of a 5-digit designation decodes exactly when more than three characters exist and those after the third are digits |
| Naca.DecodeEncode5 | scripts/1_generate_naca_files.py:70 | the last two digits give the thickness in hundredths, whatever the series digits are |
| Naca.CosineSpacing | scripts/1_generate_naca_files.py:18-21 | `int(n/2) + 1` stations |
| Naca.ThicknessEnds | scripts/1_generate_naca_files.py:23-26 | the thickness is zero at the nose and 0.0105·t at the tail (the trailing edge stays open) |
| Naca.MeanLine4Continuous | scripts/1_generate_naca_files.py:44-49 | both pieces of the 4-digit mean line reach the maximum camber m at x = p with zero slope, so the line is smooth there |
| Naca.MeanLine4Ends | scripts/1_generate_naca_files.py:44-49 | the 4-digit mean line ends at 0 at the tail and starts at 0 at the nose, except that it starts at m when p = 0 |
| Naca.MeanLine4Flat | scripts/1_generate_naca_files.py:41-42 | zero camber gives a flat mean line of zero slope |
| Naca.MeanLine5Ends | scripts/1_generate_naca_files.py:78-84 | the 5-digit mean line starts and ends on the chord |
| Naca.MeanLine5MeetAtM | scripts/1_generate_naca_files.py:78-84 | the cubic and the straight line agree in value and slope at x = m = 0.2025 |
| Naca.MeanLine5StepAtP | scripts/1_generate_naca_files.py:66-84 | switching pieces at x = p = 0.15 rather than at m leaves a jump in both camber and slope |
| Naca.Surfaces | scripts/1_generate_naca_files.py:51-55 | upper and lower points are symmetric about the mean-line point; zero thickness puts both on it |
| Naca.Wrap | scripts/1_generate_naca_files.py:57 | the outline runs over the upper surface reversed, then the lower surface without its first point |
| Naca.SectionsPoints | scripts/1_generate_naca_files.py:51-57 | outline point i is the upper point of station k-1-i, and point j ≥ k is the lower point of station j-k+1 |
| Naca.SectionsNose | scripts/1_generate_naca_files.py:57 | with zero thickness at the nose, the lower nose point that is dropped equals the upper one that is kept |
| Naca.SectionsTail | scripts/1_generate_naca_files.py:57 | the first and last outline points are symmetric about the last mean-line point |
| Naca.SectionsSymmetric | scripts/1_generate_naca_files.py:41-57 | an uncambered section's outline is its own mirror image about the chord |
| Naca.Naca4Of | scripts/1_generate_naca_files.py:28-57 | a section exists exactly for a decodable designation and has `2·int(n/2) + 1` points in each coordinate |
| Naca.Naca5Of | scripts/1_generate_naca_files.py:59-92 | a section exists exactly for a decodable designation and has `2·int(n/2) + 1` points in each coordinate |
| Naca.Naca4Digit | scripts/1_generate_naca_files.py:28-57 | the loop-and-array computation gives the specified 4-digit outline |
| Naca.FillMeanLine4 | scripts/1_generate_naca_files.py:37-49 | the loop fills the 4-digit mean line and its slope |
| Naca.Naca5Digit | scripts/1_generate_naca_files.py:59-92 | the loop-and-array computation gives the specified 5-digit outline |
| Naca.FillMeanLine5 | scripts/1_generate_naca_files.py:75-84 | the loop fills the 5-digit mean line and its slope |
| Naca.Naca4Nose | scripts/1_generate_naca_files.py:28-57 | the middle outline point is the nose: x = 0, on the chord unless p = 0 |
| Naca.Naca4Tail | scripts/1_generate_naca_files.py:28-57 | the two trailing-edge points are symmetric about (1, 0) |
| Naca.Naca4Symmetric | scripts/1_generate_naca_files.py:28-57 | a `00tt` section is symmetric about the chord |
| Naca.Naca5Nose | scripts/1_generate_naca_files.py:59-92 | the middle outline point of a 5-digit section is the origin |
| Naca.Naca5Tail | scripts/1_generate_naca_files.py:59-92 | the two trailing-edge points of a 5-digit section are symmetric about (1, 0) |
| NacaTable.TableClosed | scripts/1_generate_naca_files.py:96-142 | the table has 45 rows, starts and ends at the trailing edge (1, 0) and passes the nose (0, 0) at row 23 |
| Hardcoded.TwoFieldLines | scripts/1_generate_naca_files.py:148-150 | every kept line is an input line with exactly two fields |
| Hardcoded.TwoFieldLinesAppend | scripts/1_generate_naca_files.py:148-150 | the filter works line by line: filtering a concatenation gives the filtered parts in their order |
| Hardcoded.TwoFieldLinesKeep | scripts/1_generate_naca_files.py:148-150 | every two-field line is kept |
| Hardcoded.WrittenLines | scripts/1_generate_naca_files.py:146-151 | writing fails exactly when a kept line has a field that does not parse; otherwise the file is the name line, then for each kept line in order the point line ` x   y` of its two parsed fields |
| Hardcoded.WriteHardcoded | scripts/1_generate_naca_files.py:144-152 | the write loop produces the specified file lines |
| Hardcoded.WriteLines | scripts/1_generate_naca_files.py:146-151 | the write loop over lines produces the specified file lines |
| Hardcoded.PointLineReadBack | scripts/1_generate_naca_files.py:151 | `read_airfoil_dat` reads a written point line back as the two formatted numbers |
| Hardcoded.NameLineSkipped | scripts/1_generate_naca_files.py:147 | `read_airfoil_dat` skips the written name line whenever the name has a letter |
| NacaTable.RowsWritten | scripts/1_generate_naca_files.py:96-152 | `write_hardcoded` applied to a literal laid out like `NACA63012A_COORDS` (whose fields are single tokens) keeps every row, in order, reads each as its own two fields, and fails exactly when one of those fields does not parse |

## Left out

- File I/O, printing, `os.path`, `shutil.copy` of the polar file, directory creation and
  `ensure_dir` are left out. A file is its list of lines, or `None` when it is missing or cannot
  be read. Content written before an exception is not modelled.
- Plotting, `AirfoilComparator`, the other scripts (refinement and debugging), the XFOIL process
  itself (`subprocess`) and the `__main__` drivers are left out because they are not core logic.
- The `AirfoilCFDAnalyzer` constructor's directory handling and the Reynolds-number arithmetic are
  left out; the model keeps only the stored constants.
- Floating point is modelled as exact real arithmetic. NaN, infinities, rounding, signed zero and
  reassociation of sums are left out. The field velocity is summed in panel order as the source
  does.
- `sqrt`, `sin`, `cos`, `atan`, `atan2` and `log` are left abstract apart from the facts in
  `Lawful`. Numerical values of the influence coefficients are therefore not proved.
- `interp1d` and `linalg.solve` are left abstract. Only the interpolation property and the solved
  equation are assumed as parameters (`Interpolates`, `SolverSound`).
- Python's `float()` and the number formatting are parameters. The model does not prove that
  `show` output parses back to the same value.
- `isalpha` and `isspace` are modelled for ASCII only.
- Naca.ParseInt: models only plain digit strings. Python's `int` also accepts a sign, surrounding
  whitespace and underscores, which no designation in this repository uses.
- PanelMethod.PanelMethodAirfoil.LoadXfoilPolar: the order of rows with equal alpha is that of a
  stable sort. pandas' default quicksort may order such ties differently.
- PanelMethod.PanelMethodAirfoil.CreatePanels: requires x and y of equal length. `read_airfoil_dat`
  can return an x column one longer than y, for each line whose y field fails to parse
  (`ColumnsLength` counts them). The plotting code passes such columns straight to
  `create_panels`, where `np.diff` fails to broadcast and raises an uncaught error. The model
  does not cover that call.
- PanelGeometry.PanelsOf: requires x and y of equal length, like `CreatePanels` above, and does
  not cover the uncaught broadcast error of unequal columns.
- PanelMethod.PanelMethodAirfoil.CreatePanels: returns `None` when `interp1d` refuses the knots.
  `create_panels` has no `try`, so there the error propagates to the caller uncaught.
- XfoilAnalyzer.AirfoilCFDAnalyzer.ParseResults: a polar file that exists but cannot be opened is
  modelled as a missing one, which stores an empty table. In the source that `open` is outside
  any `try`, so the error propagates.
- PanelMethod.PanelMethodAirfoil.CreatePanels: requires a non-empty outline. The source raises
  `IndexError` on an empty one, and `read_airfoil_dat` yields an empty outline only for an
  unreadable file. A zero total arc length gives `None` where numpy would produce NaN knots.
- PanelMethod.PanelMethodAirfoil.SolveFlow: requires a non-zero freestream speed, since the source
  divides by it. A zero-length panel makes the source's matrix non-finite, which makes
  `linalg.solve` raise; the model returns `None` in that case.
- PanelSolver.PressureCoefficient and PanelMethod.PanelMethodAirfoil.SurfacePressure: require a
  non-zero freestream speed, for the same reason.
- Naca.CosineSpacing: the point count is a natural number. A negative `n_points` is not modelled.
- Naca.MeanLine5StepAtP: the 5-digit mean line switches pieces at x = 0.15 as the source does,
  not at m = 0.2025 where the two pieces meet. The model keeps the behaviour as written.
- NacaTable.TableClosed: the table rows are not proved to each hold two parsable numbers, so no
  lemma states that writing the table succeeds for a particular `parse`.
- NacaTable.RowsWritten: stated for any table literal whose fields are single tokens. That the 90
  fields of `NACA63012A_COORDS` are tokens is not proved: checking every character of the 45-row
  literal does not fit the proof budget. So the lemma is not applied to the table itself.
- Naca.DecodeNaca4, Naca.DecodeNaca5, Naca.Naca4Of and Naca.Naca5Of: return `None` for a designation
  that `int()` cannot read. `naca4_digit` and `naca5_digit` have no `try`, so there the
  `ValueError` or `IndexError` propagates uncaught.
- Hardcoded.WrittenLines, Hardcoded.Written and Hardcoded.WriteHardcoded: return `None` when a
  two-field line has a field that `float()` cannot read. `write_hardcoded` has no `try`, so there
  the `ValueError` propagates uncaught, after the lines before it were written.
- Python's default arguments are not modelled as defaults: every call passes them explicitly. They
  are `V_cr=42.0`, `rho=1.225` and `chord=1.0` of the `AirfoilCFDAnalyzer` constructor,
  `num_panels=160`, `V_inf=1.0` and `res=50` of `PanelMethodAirfoil`, and `n_points=200` of the
  section generators. The behaviour at a default is a special case of the modelled one.
- `np.isclose` is modelled with its default tolerances, including its asymmetry in the two
  arguments.
