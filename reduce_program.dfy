/** Host side of the windowed reduction kernel generator: the `ReduceProgram`
    constructor, which turns a reduce geometry and a reduce type into the
    constants and code choices of the emitted GLSL program. The emitted text
    itself is represented by the `Program` datatype; `ReduceKernel` gives it
    a meaning. */
module ReduceProgram {
  import opened ExtFloat

  datatype Option<T> = None | Some(value: T)

  /** The reduce type: `'sum' | 'min' | 'max' | 'all'`. */
  datatype ReduceType = Sum | Min | Max | All

  /** The 2D view of the reduction the caller has already prepared. */
  datatype ReduceInfo = ReduceInfo(windowSize: int, batchSize: nat, inSize: nat)

  /** The `compareOp` text spliced into the min/max branch of the update. */
  datatype CompareOp = NoOp | MinOp | MaxOp

  /** The update snippet pasted after each 4-wide fetch. `SumOrCompare(isSum, op)`
      is the `if (isSum) { sumValue += dot(values, ones); } else
      { minMaxValue = op(values, minMaxValue); }` snippet; `AllSnippet` the
      `allValue = float(allValue >= 1.0 && float(all(values)) >= 1.0)` one. */
  datatype UpdateSnippet = SumOrCompare(isSum: bool, compareOp: CompareOp) | AllSnippet

  /** The type the four fetched values are packed into. */
  datatype VecType = Vec4Type | BVec4Type

  /** The expression handed to `setOutput`: `Nested(t)` is
      `t(t(t(minMaxValue[0], minMaxValue[1]), minMaxValue[2]), minMaxValue[3])`. */
  datatype ReturnValue = Nested(fn: ReduceType) | SumValue | AllValue

  /** Everything the emitted program fixes. `checkOutOfBounds` is `Some(inSize)`
      when the guard `if (inIdx < 0 || inIdx >= inSize)` is emitted, `None`
      when it is left out of `getValue` altogether. */
  datatype Program = Program(
    variableNames: seq<string>,
    outputShape: seq<int>,
    initializationValue: Ext,
    windowSize: int,
    windowSizeNearestVec4: int,
    windowSizeVec4Remainder: int,
    checkOutOfBounds: Option<nat>,
    updateSnippet: UpdateSnippet,
    vecType: VecType,
    returnValue: ReturnValue)

  /** `Math.ceil(inSize / windowSize)`, as an exact integer ceiling. */
  function OutSize(inSize: nat, windowSize: int): (r: nat)
    requires windowSize > 0
    ensures inSize <= r * windowSize < inSize + windowSize
  {
    if inSize % windowSize == 0 then inSize / windowSize else inSize / windowSize + 1
  }

  /** The neutral value: `'0.0'`, overridden by `'1.0 / 0.0'` for min, by
      `'-1.0 / 0.0'` for max and, later in the constructor, by `'1.0'` for all. */
  function InitializationValue(t: ReduceType): (r: Ext)
    ensures t == Sum ==> r == Fin(0)
    ensures t == Min ==> r == PosInf
    ensures t == Max ==> r == NegInf
    ensures t == All ==> r == Fin(1)
  {
    var v := if t == Min then PosInf else if t == Max then NegInf else Fin(0);
    if t == All then Fin(1) else v
  }

  function CompareOpOf(t: ReduceType): (r: CompareOp)
    ensures r == MinOp <==> t == Min
    ensures r == MaxOp <==> t == Max
  {
    if t == Min then MinOp else if t == Max then MaxOp else NoOp
  }

  /** The nested horizontal reduction, overridden for sum and all. */
  function ReturnValueOf(t: ReduceType): (r: ReturnValue)
    ensures r.Nested? ==> r.fn.Min? || r.fn.Max?
    ensures t == Sum ==> r == SumValue
    ensures t == All ==> r == AllValue
    ensures t == Min || t == Max ==> r == Nested(t)
  {
    var rv := Nested(t);
    if t == Sum then SumValue else if t == All then AllValue else rv
  }

  /** The update snippet: the sum/compare one, replaced for all. */
  function UpdateSnippetOf(t: ReduceType): (r: UpdateSnippet)
    ensures r.SumOrCompare? ==> r.isSum || r.compareOp != NoOp
    ensures t == All <==> r == AllSnippet
    ensures r.SumOrCompare? ==> (r.isSum <==> t == Sum)
    ensures t == Min ==> r == SumOrCompare(false, MinOp)
    ensures t == Max ==> r == SumOrCompare(false, MaxOp)
    ensures t == Sum ==> r == SumOrCompare(true, NoOp)
  {
    var u := SumOrCompare(t == Sum, CompareOpOf(t));
    if t == All then AllSnippet else u
  }

  function VecTypeOf(t: ReduceType): (r: VecType)
    ensures r == BVec4Type <==> t == All
  {
    if t == All then BVec4Type else Vec4Type
  }

  /** `Math.floor(windowSize / 4) * 4`: the part of the window covered by whole
      4-wide groups. */
  function NearestVec4(windowSize: int): (r: nat)
    requires windowSize > 0
    ensures r % 4 == 0 && r <= windowSize < r + 4
  {
    (windowSize / 4) * 4
  }

  /** `windowSize % 4`: the number of elements left for the tail group. */
  function Vec4Remainder(windowSize: int): (r: nat)
    requires windowSize > 0
    ensures r < 4 && (windowSize - r) % 4 == 0
  {
    windowSize % 4
  }

  /** The guard is emitted when `inSize % windowSize > 0`. */
  function CheckOutOfBounds(info: ReduceInfo): (r: Option<nat>)
    requires info.windowSize > 0
    ensures r.Some? <==> info.inSize % info.windowSize != 0
    ensures r.Some? ==> r.value == info.inSize
  {
    if info.inSize % info.windowSize > 0 then Some(info.inSize) else None
  }

  /** The `ReduceProgram` constructor. */
  function Build(info: ReduceInfo, t: ReduceType): (p: Program)
    requires info.windowSize > 0
    ensures |p.outputShape| == 2 && p.outputShape[0] == info.batchSize
    ensures p.windowSize == info.windowSize
    ensures p.windowSizeNearestVec4 + p.windowSizeVec4Remainder == info.windowSize
  {
    var ws := info.windowSize;
    Program(
      ["x"],
      [info.batchSize, OutSize(info.inSize, ws)],
      InitializationValue(t),
      ws,
      NearestVec4(ws),
      Vec4Remainder(ws),
      CheckOutOfBounds(info),
      UpdateSnippetOf(t),
      VecTypeOf(t),
      ReturnValueOf(t))
  }

  /** Index `k` of window `outIdx` lies past the end of the row. */
  predicate WindowIndexPastEnd(info: ReduceInfo, outIdx: int, k: int) {
    outIdx * info.windowSize + k >= info.inSize
  }

  /** `outputShape` is `[batchSize, ceil(inSize / windowSize)]`: the number of
      windows is the least count whose windows cover the whole row. */
  lemma OutputShapeIsCeiling(info: ReduceInfo, t: ReduceType)
    requires info.windowSize > 0
    ensures var n := Build(info, t).outputShape[1];
      n >= 0 &&
      (n - 1) as real < info.inSize as real / info.windowSize as real <= n as real
    ensures info.inSize % info.windowSize == 0 ==>
      Build(info, t).outputShape[1] == info.inSize / info.windowSize
    ensures info.inSize % info.windowSize != 0 ==>
      Build(info, t).outputShape[1] == info.inSize / info.windowSize + 1
  {
    var n := OutSize(info.inSize, info.windowSize);
    CeilingInReals(info.inSize, info.windowSize, n);
  }

  /** An integer `n` with `inSize <= n * ws < inSize + ws` is the real ceiling
      of `inSize / ws`. */
  lemma CeilingInReals(inSize: nat, ws: int, n: int)
    requires ws > 0
    requires inSize <= n * ws < inSize + ws
    ensures (n - 1) as real < inSize as real / ws as real <= n as real
  {
    var w := ws as real;
    var q := inSize as real / w;
    assert q * w == inSize as real;
    assert (n - 1) * ws < inSize;
    assert ((n - 1) as real) * w == ((n - 1) * ws) as real;
    assert (n as real) * w == (n * ws) as real;
    ScaleBack((n - 1) as real, q, w, true);
    ScaleBack(q, n as real, w, false);
  }

  lemma ScaleBack(a: real, b: real, w: real, strict: bool)
    requires w > 0.0
    requires if strict then a * w < b * w else a * w <= b * w
    ensures if strict then a < b else a <= b
  {
    assert (b - a) * w == b * w - a * w;
  }

  /** The 4-lane split: whole groups plus a tail of 0 to 3 elements make up the
      window exactly. */
  lemma LaneSplit(info: ReduceInfo, t: ReduceType)
    requires info.windowSize > 0
    ensures var p := Build(info, t);
      p.windowSizeNearestVec4 % 4 == 0 &&
      0 <= p.windowSizeNearestVec4 <= info.windowSize &&
      0 <= p.windowSizeVec4Remainder <= 3 &&
      p.windowSizeNearestVec4 + p.windowSizeVec4Remainder == info.windowSize
  {
  }

  /** When the row splits into whole windows, every index a window reads lies
      inside the row: the guard would be dead code. */
  lemma {:induction false} EvenWindowsInBounds(info: ReduceInfo, outIdx: int, k: int)
    requires info.windowSize > 0
    requires info.inSize % info.windowSize == 0
    requires 0 <= outIdx < OutSize(info.inSize, info.windowSize)
    requires 0 <= k < info.windowSize
    ensures 0 <= outIdx * info.windowSize + k < info.inSize
  {
    var ws := info.windowSize;
    var n := info.inSize / ws;
    assert info.inSize == n * ws;
    assert outIdx <= n - 1;
    assert outIdx * ws <= (n - 1) * ws by {
      MulMonotone(outIdx, n - 1, ws);
    }
  }

  lemma MulMonotone(a: int, b: int, c: nat)
    requires a <= b
    ensures a * c <= b * c
  {
  }

  /** The guard is emitted exactly when some window of the row runs past its end,
      and when emitted it compares against `inSize`. */
  lemma GuardEmittedIffNeeded(info: ReduceInfo, t: ReduceType)
    requires info.windowSize > 0
    ensures var n := OutSize(info.inSize, info.windowSize);
      Build(info, t).checkOutOfBounds.Some? <==>
      exists o, k :: 0 <= o < n && 0 <= k < info.windowSize && WindowIndexPastEnd(info, o, k)
    ensures Build(info, t).checkOutOfBounds.Some? ==>
      Build(info, t).checkOutOfBounds.value == info.inSize
  {
    var ws := info.windowSize;
    var n := OutSize(info.inSize, ws);
    if info.inSize % ws > 0 {
      assert WindowIndexPastEnd(info, n - 1, ws - 1) by {
        assert (n - 1) * ws + ws - 1 == n * ws - 1;
      }
    } else {
      forall o, k | 0 <= o < n && 0 <= k < ws
        ensures !WindowIndexPastEnd(info, o, k)
      {
        EvenWindowsInBounds(info, o, k);
      }
    }
  }

  /** Every window starts inside the row, so it holds at least one real element. */
  lemma {:induction false} WindowStartsInRow(info: ReduceInfo, outIdx: int)
    requires info.windowSize > 0
    requires 0 <= outIdx < OutSize(info.inSize, info.windowSize)
    ensures 0 <= outIdx * info.windowSize < info.inSize
  {
    var ws := info.windowSize;
    var n := OutSize(info.inSize, ws);
    MulMonotone(outIdx, n - 1, ws);
    assert (n - 1) * ws == n * ws - ws;
  }
}
