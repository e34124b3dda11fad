# Sim2Blend TRC marker import, modelled in Dafny

This project models the marker-trajectory import of `Sim2Blend/markers.py`. The importer
reads a `.trc` file (a Motion Analysis / OpenSim text format) and turns every marker named
in the file into an animated sphere in a Blender scene. The model covers the logic that
does not depend on the host:

* `load_trc`. It drops the first column of the numeric rows that follow the 5-line
  preamble, so column 0 is time. It reads the name header line with the
  `enumerate`/`readline` scan, trims it with `line[12:-3]` and splits it on three tabs.
* `import_trc`. It computes the intrinsic frame rate and the decimation stride
  `k = int(fps / target_framerate)`. It resolves each marker to the first collection
  object whose name contains the marker name. It runs the nested loop that records one
  keyframe per marker and retained sample, at frame `int(n/k) + 1`, with the Z-up or
  Y-up axis conversion. It dispatches on the `.trc` / `.c3d` extension.

Modules, one per component:

* `Common` (`common.dfy`) holds `Option`, `Result` and `TrcError`. `TrcError` lists
  every exception the modelled steps raise; I/O, parsing and host errors are left out.
* `PyStr` (`pystr.dfy`) holds Python slicing, `str.split`, `str.join`, `in` and `endswith`.
* `TrcLoad` (`trc_load.dfy`) models `load_trc`.
* `Resample` (`resample.dfy`) holds `int()` truncation, the intrinsic rate, the stride,
  `range` and frame numbers.
* `Axes` (`axes.dfy`) holds the up-axis conversion and its inverse.
* `ImportTrc` (`import_trc.dfy`) holds name resolution, the keyframe loops and `import_trc`.

Inputs are passed in as parameters:

* the file's lines, each with its line terminator, as Python's file iteration yields them;
* the numeric rows `np.loadtxt` parses after the preamble;
* the names of the collection's objects once the markers exist. Blender chooses these
  names, and it may rename duplicates.

A keyframe is recorded as a `(object name, frame, location)` value. On an exception the
loop stops. The keyframes already recorded are kept, because the source does no cleanup.

The line that holds the names: the code calls `f.readline()` while `enumerate(f)` is at
index 2, so it reads line index 3, the `Frame#\tTime\t...` row.

## Model

| member | source | states |
|---|---|---|
| `TrcLoad.TrimHeader` | Sim2Blend/markers.py:65 | `line[12:-3]`, through `PyStr.Slice`, Python's clamped slicing with negative bounds counted from the end, has length max(0, len(line) - 15), and for lines of 15 or more characters it is exactly what lies between the first 12 and the last 3 characters |
| `TrcLoad.TrimHeaderOf` | Sim2Blend/markers.py:65 | a line made of a 12-character label, a body and 3 trailing characters trims to exactly the body |
| `TrcLoad.MarkerNames` | Sim2Blend/markers.py:65-68 | the name list is never empty, joins back with three tabs to the trimmed header, no name contains the three-tab separator, and the names are `str.split`'s pieces, which `PyStr.SplitFirstPiece` cuts at the leftmost occurrences of the separator |
| `PyStr.Split` | Sim2Blend/markers.py:68 | `str.split(sep)` always yields at least one piece; its round trip and its leftmost-occurrence rule are `PyStr.JoinSplit` and `PyStr.SplitFirstPiece` |
| `PyStr.JoinSplit` | Sim2Blend/markers.py:68 | `sep.join(s.split(sep)) == s` for every string |
| `PyStr.SplitFirstPiece` | Sim2Blend/markers.py:68 | split follows the leftmost-occurrence rule: the first name is the text before the first separator (or all of it when there is none), and the rest is the split of what follows that separator |
| `PyStr.SplitPiecesFree` | Sim2Blend/markers.py:68 | no piece of a split contains the separator |
| `TrcLoad.LoadData` | Sim2Blend/markers.py:59 | ragged rows fail, fewer than 2 rows or 2 columns fail (squeezed array), otherwise the matrix has one row per input row, is rectangular, is one column narrower, and cell (n, c) is input cell (n, c+1) |
| `TrcLoad.ReadHeaderLine` | Sim2Blend/markers.py:62-67 | the enumerate/readline scan equals `TrcLoad.HeaderLine`: it yields line index 3, or "" when the file has exactly 3 lines, and no header when it has fewer than 3 lines |
| `TrcLoad.Loaded` | Sim2Blend/markers.py:58-70 | the load fails with the data error when the rows are ragged or squeezed, and otherwise with the missing-header error when the file has fewer than 3 lines; when the rows load and the file has at least 3 lines it succeeds with the rows minus their first column and the names of line index 3 ("" for a 3-line file); a success has at least 2 rows, rectangular data of at least one column (time) and at least one name |
| `TrcLoad.LoadTrc` | Sim2Blend/markers.py:58-70 | the imperative load returns what `Loaded` specifies |
| `TrcLoad.AdjacentSeparators` | Sim2Blend/markers.py:65-68 | six tabs between two names are two separators with an empty name in between: `["A", "", "B"]` |
| `TrcLoad.TwoMarkerHeader` | Sim2Blend/markers.py:62-68 | the header `"Frame#\tTime\tA\t\t\tB\t\t\n"` yields the names `["A", "B"]` |
| `Resample.Trunc` | Sim2Blend/markers.py:129-130 | `int()` truncates toward zero: r <= x < r + 1 for x >= 0 and r - 1 < x <= r for x < 0 |
| `Resample.TruncDivIsFloorDiv` | Sim2Blend/markers.py:155 | on non-negative operands `int(a / b)` is floor division |
| `Resample.IntrinsicRate` | Sim2Blend/markers.py:128-129 | zero duration fails; for positive duration d the rate f >= 0 is the largest with f * d <= samples - 1; for negative duration d the rate f <= 0 satisfies f * d <= samples - 1 < (f - 1) * d, which is truncation toward zero |
| `Resample.NegativeRateBounds` | Sim2Blend/markers.py:129 | truncating n / d (n >= 0, d < 0) gives f <= 0 with f * d <= n < (f - 1) * d |
| `Resample.TruncDivSigns` | Sim2Blend/markers.py:130 | `int(a / b)` is the floor quotient of the magnitudes, negated when the signs differ |
| `Resample.RateBounds` | Sim2Blend/markers.py:129 | truncating n / d (n >= 0, d > 0) gives f >= 0 with f * d <= n < (f + 1) * d |
| `Resample.Stride` | Sim2Blend/markers.py:130 | target 0 fails; non-negative fps over a positive target gives fps div target; equal rates give 1; a target above a non-negative fps gives 0; a negative fps over a positive target gives -((-fps) div target), a non-negative fps over a negative target gives -(fps div (-target)), and two negatives give (-fps) div (-target) |
| `Resample.PyRangeShape` | Sim2Blend/markers.py:143 | a positive-step `range(start, stop, step)` yields start + j*step for each j, and there are ceil((stop - start) / step) values |
| `Resample.Retained` | Sim2Blend/markers.py:143 | `range(0, len, k)` for k > 0 holds j*k at position j, and there are (len - 1) div k + 1 values (0 for len 0); for k < 0 it is empty |
| `Resample.RetainedIndices` | Sim2Blend/markers.py:143 | the retained indices lie in 0 .. len-1, strictly increase, and are exactly the multiples of k below len |
| `Resample.FrameOf` | Sim2Blend/markers.py:155 | for a retained index n >= 0 the frame `int(n/k) + 1` is n div k + 1, so it is at least 1 |
| `Resample.RetainedFrames` | Sim2Blend/markers.py:143-155 | the j-th retained index goes to frame j + 1, so frames start at 1 with no gaps or repeats |
| `Resample.EqualRatesKeepAll` | Sim2Blend/markers.py:130-143 | equal rates give stride 1, and then every sample index is retained |
| `Resample.From120To30` | Sim2Blend/markers.py:130-155 | rate 120 with target 30 gives stride 4, and 121 samples give 31 keyframes on frames 1..31 |
| `Axes.Remap` | Sim2Blend/markers.py:145-152 | the location computed from the raw triple is undone by `Unmap`: (x, y, z) maps back to (x, z, -y) for "zup" and to (x, z, y) for every other direction |
| `Axes.RemapUnmap` | Sim2Blend/markers.py:145-152 | `Unmap` is also a right inverse, so each conversion is a bijection |
| `Axes.YUpSelfInverse` | Sim2Blend/markers.py:149-152 | the non-"zup" conversion is its own inverse |
| `ImportTrc.Resolve` | Sim2Blend/markers.py:141-142 | the result is the first object, in collection order, whose name contains the marker name; with no such object, `[0]` fails |
| `ImportTrc.OwnNameResolves` | Sim2Blend/markers.py:141-142 | a marker whose own name is an object name always resolves |
| `ImportTrc.CreatedMarkersResolve` | Sim2Blend/markers.py:136-142 | if every marker name is among the object names, every marker resolves |
| `ImportTrc.NameCollision` | Sim2Blend/markers.py:141-142 | with objects "LHip" then "Hip", marker "Hip" resolves to the "LHip" object |
| `ImportTrc.MarkerKeys` | Sim2Blend/markers.py:143-155 | one keyframe per retained index, all on the marker's object; the j-th is at frame j + 1 and holds the converted columns 3i+1..3i+3 of sample j*k |
| `ImportTrc.MarkerStep` | Sim2Blend/markers.py:141-155 | a marker fails exactly when it does not resolve (`NoMatchingObject`), or it resolves and k is 0 (`ZeroStride`, the `range` error), or k > 0 and the rows are too narrow for its columns (`ColumnOutOfRange(i)`); with k > 0 and wide enough rows it yields the marker's `MarkerKeys` on its resolved object, with locations; for k < 0 it yields nothing |
| `ImportTrc.Animated` | Sim2Blend/markers.py:140-155 | a run over the first markers that raises nothing had every one of their steps succeed (the converse is `ImportTrc.AnimatedNoFailure`) |
| `ImportTrc.FailureSticks` | Sim2Blend/markers.py:140-155 | after an exception, later markers change nothing |
| `ImportTrc.Locate` | Sim2Blend/markers.py:145-152 | the `loc_x`, `loc_y`, `loc_z` assignments give the converted position of the marker's columns, and `Unmap` gives back the raw columns |
| `ImportTrc.KeyframeAt` | Sim2Blend/markers.py:144-155 | one pass of the inner loop body raises the out-of-range column error when the rows are too narrow, and otherwise makes the keyframe at frame `int(n/k) + 1` with the converted position of row n |
| `ImportTrc.AnimateMarker` | Sim2Blend/markers.py:143-155 | the inner loop records `MarkerKeys`, or records nothing and fails at the first row when the columns are missing, or records nothing for a negative stride or no rows |
| `ImportTrc.AnimateMarkers` | Sim2Blend/markers.py:140-155 | the nested loop produces the keyframes and the exception that `Animated` specifies |
| `ImportTrc.AnimatedBlocks` | Sim2Blend/markers.py:140-155 | with no failing marker, marker i's keyframes form block i of the output (C per marker, name order), and no other marker's keyframes are among them |
| `ImportTrc.AnimatedNoFailure` | Sim2Blend/markers.py:140-155 | markers that all succeed leave no exception |
| `ImportTrc.FirstFailureEndsRun` | Sim2Blend/markers.py:140-155 | the run ends with the first failing marker's exception, keeping exactly the keyframes of the markers before it |
| `ImportTrc.WellFormedAnimation` | Sim2Blend/markers.py:140-155 | for rows of 1 + 3 * (number of names) columns, a positive stride and resolvable names, the loop completes with names * C keyframes, and block i is marker i's `MarkerKeys` |
| `ImportTrc.NarrowRowsFail` | Sim2Blend/markers.py:146-152 | for rows of w < 1 + 3 * (number of names) columns, the markers before (w - 1) div 3 complete, and the loop then fails with an out-of-range column |
| `ImportTrc.TargetAboveIntrinsic` | Sim2Blend/markers.py:130-143 | a target above the intrinsic rate gives stride 0, and the run fails on the first marker with no keyframes |
| `ImportTrc.NegativeStrideRecordsNothing` | Sim2Blend/markers.py:143 | a negative stride records nothing and raises nothing |
| `ImportTrc.Prepare` | Sim2Blend/markers.py:121-130 | a failed load passes its error on; after a load, a zero duration of the time column fails with the non-finite rate and a zero target with the zero target rate, and otherwise it succeeds; a success holds `load_trc`'s data and names, the stride `int(fps / target_framerate)` of the intrinsic rate of column 0, rectangular data of at least 2 rows and at least one name |
| `ImportTrc.TrcRun` | Sim2Blend/markers.py:121-155 | when the preparation fails no keyframe is recorded and its error is the run's; a run that raises nothing had a successful preparation and a non-zero stride |
| `ImportTrc.TrcRunCompletes` | Sim2Blend/markers.py:121-155 | when the preparation succeeds with a positive stride, every marker resolves and the rows have the frame column plus three per name, the `.trc` run raises nothing, records names * C keyframes, and block i is marker i's `MarkerKeys` |
| `ImportTrc.Import` | Sim2Blend/markers.py:108-161 | a `.trc` path loads, rates, strides and animates, and records no keyframe when any of the first three fails; a `.c3d` path is delegated; any other path has no effect |

## Left out

- Blender calls are not modelled: `addMarker` with its material, mesh, sphere and
  collection linking, the scene frame-rate setting and the collection creation. They are
  host API calls with no logic; the importer only sees the resulting object names, which
  are an input.
- The `.c3d` branch is only recorded as taken. It enables the `io_anim_c3d` add-on and
  calls it, and that is foreign code.
- File opening and `np.loadtxt` number parsing are not modelled: the parsed rows are an
  input. `lines` and `rows` are assumed to come from the same file.
- Resample.IntrinsicRate: the quotient `(len(times)-1)/(times[-1]-times[0])` is exact,
  not an IEEE double. The exact quotient can fall just below an integer that the rounded
  double quotient reaches, so the model's `fps` can be one lower than the program's at
  ordinary magnitudes. For example, with 11 samples from 0 to the double nearest 0.1,
  Python's `int(10/0.1)` is 100 but the model gives 99; with target 50 the program then
  uses stride 2 and the model stride 1. The times themselves are exact reals, not the
  doubles `np.loadtxt` parses.
- Resample.Stride and Resample.FrameOf: `int(fps/target)` and `int(n/k)` divide integers
  exactly. The double quotient can round up to the next integer only for operands of
  about 2^53 or more, and that is not captured. `target_framerate` is an integer.
- The objects' final `location` values are not kept: the model records the location at
  each keyframe, and the last of them is the final one.
- `RADIUS`, `COLOR` and the module-level `direction` are configuration and are not modelled.
- `Import` has no default arguments: the source's defaults `direction='zup'` and
  `target_framerate=30` must be passed explicitly.
- Locations are exact reals. Blender stores object locations in single precision, and
  that rounding is not modelled.
- Exceptions raised by file opening, `np.loadtxt` parsing (missing file, non-numeric data,
  decoding), the `addMarker` host calls, and the assignment of a non-integer
  `target_framerate` to the scene frame rate are host or I/O errors and are not modelled.
