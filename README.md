# Windowed reduction kernel generator, in Dafny

This project models `ReduceProgram`, the WebGL kernel generator of the
tfjs-core backend for windowed reductions (`src/kernels/webgl/reduce_gpu.ts`).
It also proves properties of that model.

Given a reduce geometry (`windowSize`, `batchSize`, `inSize`) and a reduce type
(`sum`, `min`, `max` or `all`), the constructor derives these:

- the output shape;
- the split of each window into whole 4-wide groups and a tail of 0 to 3;
- the neutral value;
- whether `getValue` needs a bounds guard;
- the update snippet, the vector type and the expression handed to `setOutput`.

It then emits a GLSL program. For one output cell `(batch, outIdx)` that program
does the following:

- It walks the cell's window in groups of four.
- It pads the tail group with the neutral value.
- It folds each group into accumulators, then combines them.

The model is in four modules:

- `ExtFloat` (`ext_float.dfy`) is the value domain. GLSL floats become
  integers extended with -inf and +inf, the two infinities the kernel uses as
  neutral values. It also defines GLSL `min`/`max`, addition and the
  nonzero-is-true conversion.
- `ReduceProgram` (`reduce_program.dfy`) is the host side. `Build` is the
  constructor as a pure function. It yields a `Program` value that records what
  the emitted text fixes:
  - the variable names and the output shape;
  - the neutral value;
  - `windowSize`, `windowSizeNearestVec4` and `windowSizeVec4Remainder`;
  - the guard, as the `inSize` baked into it, or none;
  - the update snippet, the vector type and the return expression.

  The lemmas here are about the shape, the lane split and the guard.
- `ReduceSemantics` (`reduce_semantics.dfy`) says what a window reduction
  means, independently of the kernel. It has two definitions:
  - a naive left-to-right fold over the window, with elements past the row's
    end counting as the neutral value;
  - an integer reference over the row elements the window covers: their sum,
    their least or greatest element, or whether all of them are nonzero.

  It proves that the two agree.
- `ReduceKernel` (`reduce_kernel.dfy`) interprets the emitted program.
  - `GetValue` is the emitted `getValue`. It reads through `GetX`, which is
    only defined inside the row, so a read the guard does not cover fails to
    verify.
  - `Update` is the update snippet and `SetOutputValue` the expression handed
    to `setOutput`.
  - `RunMain` is the emitted `main`. It computes `inOffset` and runs
    `RunWindow`. `RunWindow` runs the whole-group loop (`WholeGroups`), then
    the tail branch chain (`TailStep`).

  The methods are proved against the naive fold and the reference.
  `RunMain` also reports the trace of indices passed to `getValue` and the
  number of update runs.

`ReduceCases` (`reduce_cases.dfy`) states, and proves, the interpreter's result
on a few concrete rows:
whole windows for sum, the three windows of a guarded row for max, a window with a tail
for min, and all on rows with and without a zero.

The constructor is a function, so equal inputs give equal programs.

The emitted min/max update is `min(values, minMaxValue)`, with the new values as
the first argument. The model follows that argument order, and `GlslMin` and
`GlslMax` follow GLSL's definitions (`min(x, y)` is `y < x ? y : x`).

## Model

| member | source | states |
|---|---|---|
| `ReduceProgram.OutSize` | src/kernels/webgl/reduce_gpu.ts:30 | `outSize` is the least multiple count of `windowSize` that covers `inSize`: `inSize <= outSize * windowSize < inSize + windowSize` |
| `ReduceProgram.OutputShapeIsCeiling` | src/kernels/webgl/reduce_gpu.ts:30-31 | `outputShape[1]` is the real ceiling of `inSize / windowSize`; it is `inSize / windowSize` when the division is exact and one more otherwise |
| `ReduceProgram.Build` | src/kernels/webgl/reduce_gpu.ts:26-31 | the program's output shape is `[batchSize, _]`, it keeps `windowSize`, and whole groups plus tail make up the window |
| `ReduceProgram.InitializationValue` | src/kernels/webgl/reduce_gpu.ts:33-67 | the neutral value is 0 for sum, +inf for min, -inf for max and 1 for all, the last overriding the first default |
| `ReduceProgram.CompareOpOf` | src/kernels/webgl/reduce_gpu.ts:34-42 | the compare op is `min` exactly for min and `max` exactly for max; for sum and all it stays empty |
| `ReduceProgram.ReturnValueOf` | src/kernels/webgl/reduce_gpu.ts:44-51 | sum returns `sumValue`, all returns `allValue`, and min and max return the nested horizontal expression over their own function (the only nested expressions there are) |
| `ReduceProgram.UpdateSnippetOf` | src/kernels/webgl/reduce_gpu.ts:56-74 | all gets the all snippet, and only all does; the sum/compare snippet takes the sum branch exactly for sum, with the empty compare op, and for min and max it holds `min` or `max` respectively |
| `ReduceProgram.VecTypeOf` | src/kernels/webgl/reduce_gpu.ts:64-73 | the vector type is `bvec4` exactly for all, `vec4` otherwise |
| `ReduceProgram.CheckOutOfBounds` | src/kernels/webgl/reduce_gpu.ts:76-83 | the guard is emitted exactly when `inSize % windowSize` is nonzero, and then compares against `inSize` |
| `ReduceProgram.NearestVec4` | src/kernels/webgl/reduce_gpu.ts:53 | `windowSizeNearestVec4` is a multiple of 4 with `nv <= windowSize < nv + 4` |
| `ReduceProgram.Vec4Remainder` | src/kernels/webgl/reduce_gpu.ts:54 | the remainder is below 4 and leaves a multiple of 4 |
| `ReduceProgram.LaneSplit` | src/kernels/webgl/reduce_gpu.ts:53-54 | in the built program the whole groups cover a multiple of 4 at most `windowSize`, the remainder is 0 to 3, and the two sum to `windowSize` |
| `ReduceProgram.GuardEmittedIffNeeded` | src/kernels/webgl/reduce_gpu.ts:76-83 | the guard is emitted if and only if some index of some window lies past the row's end, and it compares against `inSize` |
| `ReduceProgram.EvenWindowsInBounds` | src/kernels/webgl/reduce_gpu.ts:77-97 | when `inSize % windowSize == 0`, every index `outIdx * windowSize + k` of every window lies in `[0, inSize)`, so leaving the guard out is safe |
| `ReduceProgram.WindowStartsInRow` | src/kernels/webgl/reduce_gpu.ts:97 | every window's `inOffset` lies inside the row, so each window covers at least one real element |
| `ReduceSemantics.Window` | src/kernels/webgl/reduce_gpu.ts:88-97 | the window of `windowSize` elements from `inOffset` holds the row's element where there is one and the padding value past the row's end |
| `ReduceSemantics.InitializationValueIsNeutral` | src/kernels/webgl/reduce_gpu.ts:33-42 | the neutral value is a right identity of each type's step (for all, on booleans) and on the left turns an element into itself (for all, into its truth value) |
| `ReduceSemantics.AllFoldIsBool` | src/kernels/webgl/reduce_gpu.ts:71 | for all, the accumulator stays 0 or 1 after any number of steps |
| `ReduceSemantics.FoldAppend` | src/kernels/webgl/reduce_gpu.ts:103-143 | folding a concatenation is folding the second part from where the first left off, which is how groups chain |
| `ReduceSemantics.PaddingIsNeutral` | src/kernels/webgl/reduce_gpu.ts:116-143 | any number of neutral padding elements leave a fold unchanged |
| `ReduceSemantics.NaiveMatchesReference` | src/kernels/webgl/reduce_gpu.ts:44-74 | the naive fold of the lifted row elements is their sum, least or greatest element, or 1 exactly when all are nonzero |
| `ReduceSemantics.PaddedWindowMatchesReference` | src/kernels/webgl/reduce_gpu.ts:88-97 | the naive fold of a window padded past the row's end equals the reference over the row elements the window covers |
| `ReduceKernel.GetX` | src/kernels/webgl/reduce_gpu.ts:90 | `getX` returns the row's finite element at the index |
| `ReduceKernel.GetValue` | src/kernels/webgl/reduce_gpu.ts:88-91 | `getValue` returns the row's element for an index inside the row and the neutral value for one outside it; without the guard it may only be called inside the row |
| `ReduceKernel.Pack` | src/kernels/webgl/reduce_gpu.ts:105-110 | a `vec4` holds the four values in lane order; a `bvec4` holds, lane by lane, whether each value is nonzero |
| `ReduceKernel.DotOnes` | src/kernels/webgl/reduce_gpu.ts:58 | `dot(values, ones)` is the sum of the four lanes when they are finite; that +inf wins when any lane is +inf (even beside -inf) is the model's `ExtFloat.Add` deviation, not GLSL's `dot` |
| `ReduceKernel.Lanewise` | src/kernels/webgl/reduce_gpu.ts:60 | lanewise `min`/`max` gives in each lane one of the two inputs, at most (for min) or at least (for max) both; with the empty compare op the accumulator is unchanged |
| `ReduceKernel.Update` | src/kernels/webgl/reduce_gpu.ts:56-74 | the sum snippet adds `dot(values, ones)` to `sumValue` alone, the compare snippet replaces `minMaxValue` alone by the lanewise compare, and the all snippet changes only `allValue`, to 1 exactly when it was at least 1 and all four lanes are true, else 0 |
| `ReduceKernel.HorizontalMin` | src/kernels/webgl/reduce_gpu.ts:44-45 | the nested `min` over the four lanes is one of the lanes and at most each of them |
| `ReduceKernel.HorizontalMax` | src/kernels/webgl/reduce_gpu.ts:44-45 | the nested `max` over the four lanes is one of the lanes and at least each of them |
| `ReduceKernel.SetOutputValue` | src/kernels/webgl/reduce_gpu.ts:44-51 | the value handed to `setOutput` is `sumValue` for the sum return, `allValue` for the all return, and the horizontal min or max of `minMaxValue` for the nested min or max return |
| `ReduceKernel.InitialAccumulators` | src/kernels/webgl/reduce_gpu.ts:99-101 | `sumValue` starts at 0, `allValue` at 1, and both horizontal min and max of `minMaxValue` give the neutral value |
| `ReduceKernel.ReadGroup` | src/kernels/webgl/reduce_gpu.ts:104-110 | one group reads `getValue` at `inIdx .. inIdx + 3` in order and packs the window's elements `i .. i + 3` |
| `ReduceKernel.GetValueReadsWindow` | src/kernels/webgl/reduce_gpu.ts:76-97 | for the built program, every index of every window may be passed to `getValue`, guard or no guard, and yields the padded window's element |
| `ReduceKernel.CellReadsWindow` | src/kernels/webgl/reduce_gpu.ts:88-97 | the same for all indices of one cell's window at once |
| `ReduceKernel.BuildIsBuiltFor` | src/kernels/webgl/reduce_gpu.ts:33-74 | the built program carries the neutral value, update snippet, vector type and return expression of its reduce type, and a positive window split into groups and tail |
| `ReduceKernel.InitialOutputIsNeutral` | src/kernels/webgl/reduce_gpu.ts:99-101 | the freshly initialised accumulators report the neutral value |
| `ReduceKernel.SumGroup` | src/kernels/webgl/reduce_gpu.ts:56-58 | `sumValue += dot(values, ones)` equals adding the four values one after the other |
| `ReduceKernel.MinGroup` | src/kernels/webgl/reduce_gpu.ts:44-60 | lanewise `min(values, minMaxValue)` followed by the nested horizontal min equals folding the four values into the horizontal min one by one |
| `ReduceKernel.MaxGroup` | src/kernels/webgl/reduce_gpu.ts:44-60 | the same for max |
| `ReduceKernel.AllGroup` | src/kernels/webgl/reduce_gpu.ts:66-74 | the all snippet yields 1 exactly when the accumulator was 1 and all four values are nonzero, which is four naive steps, and keeps the accumulator 0 or 1 |
| `ReduceKernel.GroupUpdate` | src/kernels/webgl/reduce_gpu.ts:99-113 | for every reduce type, one run of the update snippet on a packed group advances the reported value by four naive steps |
| `ReduceKernel.WholeGroup` | src/kernels/webgl/reduce_gpu.ts:103-113 | the group at `i` takes the reported value from the naive fold of the first `i` window elements to that of the first `i + 4` |
| `ReduceKernel.TailLanesShape` | src/kernels/webgl/reduce_gpu.ts:116-143 | the tail group's lanes are the remaining elements followed by the neutral value |
| `ReduceKernel.TailPadding` | src/kernels/webgl/reduce_gpu.ts:116-143 | folding the padded tail into the whole groups' result gives the naive fold of the whole window |
| `ReduceKernel.TailGroup` | src/kernels/webgl/reduce_gpu.ts:115-143 | the update snippet run on the padded tail finishes the naive fold of the whole window |
| `ReduceKernel.WholeGroups` | src/kernels/webgl/reduce_gpu.ts:103-113 | the loop reports the naive fold of the first `nv` window elements, passes exactly `inOffset .. inOffset + nv - 1` to `getValue` in order, runs the update `nv / 4` times and keeps the all accumulator boolean |
| `ReduceKernel.TailStep` | src/kernels/webgl/reduce_gpu.ts:115-143 | the remainder branch completes the naive fold of the window, reads exactly the `remainder` indices after `nv`, and runs the update once, or not at all when the remainder is 0 |
| `ReduceKernel.RunWindow` | src/kernels/webgl/reduce_gpu.ts:99-144 | the value handed to `setOutput` is the naive fold of the window, each window index is read once in order, and the update runs `windowSize / 4` times plus one for a partial group |
| `ReduceKernel.RunMain` | src/kernels/webgl/reduce_gpu.ts:93-145 | for each cell of the built program's output, `main` outputs the naive fold of the cell's padded window and the reduction of the row elements it covers (for all: 1 exactly when every one is nonzero), reads exactly the indices `outIdx * windowSize ..` of its window once each in order, and runs the update snippet `ceil(windowSize / 4)` times |

## Left out

- Exact GLSL text and string building are not modelled. The program is a
  datatype and the emitted code is given meaning by an interpreter. The
  `if (true)`/`if (false)` branch and the `if (remainder == n)` chain become
  case splits. The comma expression `(values, minMaxValue)` that sum's dead
  branch holds becomes "leave `minMaxValue` unchanged".
- `getX`, `getOutputCoords` and `setOutput` are engine primitives. They become
  the input rows (with a precondition that the index lies inside the row), the
  given `(batch, outIdx)` and the returned value. The `GPGPUProgram`
  interface and the construction of `ReduceInfo` are outside the model.
- GPU dispatch, parallel per-cell execution, compilation and buffer binding are
  engine concerns. The model runs one cell.
- IEEE floating point is not modelled. Values are integers extended with
  +inf and -inf, so lane reordering in `dot` cannot change rounding here. The
  `1.0 / 0.0` spelling of infinity is not modelled either.
- Input elements are finite integers: the model's rows are `seq<seq<int>>`.
  The float input read through `getX` can hold +Infinity, -Infinity or NaN;
  such elements are not modelled.
- `ExtFloat.Add`: +inf + -inf gives +inf, where IEEE gives NaN. In the model
  this case never arises, because the model's rows are finite and sum's
  padding is 0. With infinite float inputs the source's `dot` could yield NaN.
- GLSL `int` index arithmetic (`inOffset = outIdx * windowSize`,
  `inIdx = inOffset + i`, and the `inSize`, `windowSize` and
  `windowSizeNearestVec4` literals baked into the text) is modelled as
  unbounded. Overflow is not modelled, since texture limits keep these sizes
  far below 2^31.
- The float-to-`bvec4` conversion for all is modelled only as "nonzero is
  true".
- A `windowSize` of 0 or less is a precondition, since the source does not
  check it. An `inSize` or `batchSize` of 0 is allowed: it yields an output
  shape with a zero dimension and no cell to run.
- The reduce type is not stored in the `Program` value, because the source does
  not keep it. Only the choices made from it are kept.
