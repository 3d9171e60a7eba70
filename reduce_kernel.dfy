/** The emitted GLSL program, run for one output cell `(batch, outIdx)`:
    `getValue` with or without its bounds guard, the loop over whole 4-wide
    groups, the padded tail group and the final `setOutput`. */
module ReduceKernel {
  import opened ExtFloat
  import opened ReduceProgram
  import opened ReduceSemantics

  datatype Vec4 = Vec4(x: Ext, y: Ext, z: Ext, w: Ext)
  datatype BVec4 = BVec4(x: bool, y: bool, z: bool, w: bool)

  /** The `values` local of one group: a `vec4`, or a `bvec4` for all. */
  datatype Values = FloatValues(f: Vec4) | BoolValues(b: BVec4)

  /** The three accumulators every emitted `main` declares. */
  datatype Accumulators = Accumulators(minMaxValue: Vec4, sumValue: Ext, allValue: Ext)

  /** `getX(batch, inIdx)`: the engine's read of the input, which is only
      defined inside the row. */
  function GetX(x: seq<seq<int>>, batch: int, inIdx: int): (r: Ext)
    requires 0 <= batch < |x| && 0 <= inIdx < |x[batch]|
    ensures r.Fin? && r.v == x[batch][inIdx]
  {
    Fin(x[batch][inIdx])
  }

  /** The guard, when there is one, compares against the row length; when there
      is none, the index must already lie inside the row. */
  predicate CanGetValue(p: Program, x: seq<seq<int>>, batch: int, inIdx: int)
    requires 0 <= batch < |x|
  {
    match p.checkOutOfBounds
    case Some(inSize) => inSize == |x[batch]|
    case None => 0 <= inIdx < |x[batch]|
  }

  /** The emitted `getValue(batch, inIdx)`: an element of the row, or the
      neutral value for an index outside it. */
  function GetValue(p: Program, x: seq<seq<int>>, batch: int, inIdx: int): (r: Ext)
    requires 0 <= batch < |x| && CanGetValue(p, x, batch, inIdx)
    ensures 0 <= inIdx < |x[batch]| ==> r == Fin(x[batch][inIdx])
    ensures !(0 <= inIdx < |x[batch]|) ==> r == p.initializationValue
  {
    match p.checkOutOfBounds
    case Some(inSize) =>
      if inIdx < 0 || inIdx >= inSize then p.initializationValue else GetX(x, batch, inIdx)
    case None => GetX(x, batch, inIdx)
  }

  /** `vecType values = vecType(a, b, c, d)`; a `bvec4` takes nonzero as true. */
  function Pack(vt: VecType, a: Ext, b: Ext, c: Ext, d: Ext): (r: Values)
    ensures r.FloatValues? <==> vt == Vec4Type
    ensures r.FloatValues? ==> r.f.x == a && r.f.y == b && r.f.z == c && r.f.w == d
    ensures r.BoolValues? ==>
      (r.b.x <==> a != Fin(0)) && (r.b.y <==> b != Fin(0)) &&
      (r.b.z <==> c != Fin(0)) && (r.b.w <==> d != Fin(0))
  {
    match vt
    case Vec4Type => FloatValues(Vec4(a, b, c, d))
    case BVec4Type => BoolValues(BVec4(Truthy(a), Truthy(b), Truthy(c), Truthy(d)))
  }

  /** `dot(values, ones)`: the sum of the four lanes. */
  function DotOnes(v: Vec4): (r: Ext)
    ensures v.x.Fin? && v.y.Fin? && v.z.Fin? && v.w.Fin? ==> r == Fin(v.x.v + v.y.v + v.z.v + v.w.v)
    ensures v.x == PosInf || v.y == PosInf || v.z == PosInf || v.w == PosInf ==> r == PosInf
  {
    Add(Add(Add(v.x, v.y), v.z), v.w)
  }

  /** `compareOp(values, minMaxValue)`, lane by lane; with no compare op the text
      is the comma expression `(values, minMaxValue)`, whose value is
      `minMaxValue`. */
  function Lanewise(op: CompareOp, values: Vec4, acc: Vec4): (r: Vec4)
    ensures op == NoOp ==> r == acc
    ensures op == MinOp ==>
      Le(r.x, values.x) && Le(r.x, acc.x) && Le(r.y, values.y) && Le(r.y, acc.y) &&
      Le(r.z, values.z) && Le(r.z, acc.z) && Le(r.w, values.w) && Le(r.w, acc.w)
    ensures op == MaxOp ==>
      Le(values.x, r.x) && Le(acc.x, r.x) && Le(values.y, r.y) && Le(acc.y, r.y) &&
      Le(values.z, r.z) && Le(acc.z, r.z) && Le(values.w, r.w) && Le(acc.w, r.w)
    ensures op != NoOp ==>
      (r.x == values.x || r.x == acc.x) && (r.y == values.y || r.y == acc.y) &&
      (r.z == values.z || r.z == acc.z) && (r.w == values.w || r.w == acc.w)
  {
    match op
    case NoOp => acc
    case MinOp =>
      Vec4(GlslMin(values.x, acc.x), GlslMin(values.y, acc.y),
           GlslMin(values.z, acc.z), GlslMin(values.w, acc.w))
    case MaxOp =>
      Vec4(GlslMax(values.x, acc.x), GlslMax(values.y, acc.y),
           GlslMax(values.z, acc.z), GlslMax(values.w, acc.w))
  }

  /** GLSL `all(values)`. */
  predicate AllOf(b: BVec4) {
    b.x && b.y && b.z && b.w
  }

  /** The update snippet applied to one group of values. */
  function Update(u: UpdateSnippet, values: Values, acc: Accumulators): (r: Accumulators)
    requires u.SumOrCompare? <==> values.FloatValues?
    ensures u.SumOrCompare? && u.isSum ==>
      r.minMaxValue == acc.minMaxValue && r.allValue == acc.allValue &&
      r.sumValue == Add(acc.sumValue, DotOnes(values.f))
    ensures u.SumOrCompare? && !u.isSum ==>
      r.sumValue == acc.sumValue && r.allValue == acc.allValue &&
      r.minMaxValue == Lanewise(u.compareOp, values.f, acc.minMaxValue)
    ensures u.AllSnippet? ==>
      r.minMaxValue == acc.minMaxValue && r.sumValue == acc.sumValue && IsBool(r.allValue) &&
      (r.allValue == Fin(1) <==> Le(Fin(1), acc.allValue) && AllOf(values.b))
  {
    match u
    case SumOrCompare(isSum, op) =>
      if isSum then acc.(sumValue := Add(acc.sumValue, DotOnes(values.f)))
      else acc.(minMaxValue := Lanewise(op, values.f, acc.minMaxValue))
    case AllSnippet =>
      var reducedAllValue := AllOf(values.b);
      var floatedReducedAllValue := if reducedAllValue then Fin(1) else Fin(0);
      acc.(allValue :=
        if Le(Fin(1), acc.allValue) && Le(Fin(1), floatedReducedAllValue) then Fin(1) else Fin(0))
  }

  /** `min(min(min(m[0], m[1]), m[2]), m[3])`. */
  function HorizontalMin(m: Vec4): (r: Ext)
    ensures Le(r, m.x) && Le(r, m.y) && Le(r, m.z) && Le(r, m.w)
    ensures r == m.x || r == m.y || r == m.z || r == m.w
  {
    GlslMin(GlslMin(GlslMin(m.x, m.y), m.z), m.w)
  }

  /** `max(max(max(m[0], m[1]), m[2]), m[3])`. */
  function HorizontalMax(m: Vec4): (r: Ext)
    ensures Le(m.x, r) && Le(m.y, r) && Le(m.z, r) && Le(m.w, r)
    ensures r == m.x || r == m.y || r == m.z || r == m.w
  {
    GlslMax(GlslMax(GlslMax(m.x, m.y), m.z), m.w)
  }

  /** The value handed to `setOutput`. */
  function SetOutputValue(rv: ReturnValue, acc: Accumulators): (r: Ext)
    requires rv.Nested? ==> rv.fn.Min? || rv.fn.Max?
    ensures rv == SumValue ==> r == acc.sumValue
    ensures rv == AllValue ==> r == acc.allValue
    ensures rv == Nested(Min) ==> r == HorizontalMin(acc.minMaxValue)
    ensures rv == Nested(Max) ==> r == HorizontalMax(acc.minMaxValue)
  {
    var m := acc.minMaxValue;
    match rv
    case Nested(fn) =>
      if fn.Min? then HorizontalMin(m) else HorizontalMax(m)
    case SumValue => acc.sumValue
    case AllValue => acc.allValue
  }

  /** The consecutive indices `lo, lo + 1, ..., lo + n - 1`. */
  function Range(lo: int, n: nat): (r: seq<int>)
    ensures |r| == n && forall k :: 0 <= k < n ==> r[k] == lo + k
  {
    seq(n, k => lo + k)
  }

  lemma RangeAppend(lo: int, n: nat, k: nat)
    ensures Range(lo, n) + Range(lo + n, k) == Range(lo, n + k)
  {
  }

  /** Appending the next four indices, as one whole group passes them to
      `getValue`, extends a range. */
  lemma RangeExtend(lo: int, n: nat)
    ensures Range(lo, n) + [lo + n, lo + n + 1, lo + n + 2, lo + n + 3] == Range(lo, n + 4)
  {
  }

  lemma RangeEmpty(lo: int)
    ensures Range(lo, 0) == []
  {
  }

  lemma RangeShort(lo: int)
    ensures Range(lo, 1) == [lo]
    ensures Range(lo, 2) == [lo, lo + 1]
    ensures Range(lo, 3) == [lo, lo + 1, lo + 2]
  {
  }

  /** Whole groups start at multiples of 4 below `nv`, so the next one fits. */
  lemma NextGroupFits(i: int, nv: int, groups: int)
    requires 0 <= i < nv && i == 4 * groups && nv % 4 == 0
    ensures i + 4 <= nv
  {
  }

  /** `g` whole groups of 4 and a tail of `rem` below 4 make a window of `ws`:
      `g` is `ws / 4` and `rem` is `ws % 4`. */
  lemma GroupCount(ws: int, nv: int, rem: int, g: int)
    requires 4 * g == nv && nv + rem == ws && 0 <= rem < 4
    ensures g == ws / 4 && rem == ws % 4
  {
  }

  /** The accumulators `main` starts from. */
  function InitialAccumulators(p: Program): (r: Accumulators)
    ensures HorizontalMin(r.minMaxValue) == p.initializationValue
    ensures HorizontalMax(r.minMaxValue) == p.initializationValue
    ensures r.sumValue == Fin(0) && r.allValue == Fin(1)
  {
    var init := p.initializationValue;
    Accumulators(Vec4(init, init, init, init), Fin(0), Fin(1))
  }

  /** `p` carries the code choices the constructor makes for reduce type `t` and
      splits a positive window into whole groups and a tail of 0 to 3. */
  predicate BuiltFor(p: Program, t: ReduceType) {
    p.initializationValue == InitializationValue(t) &&
    p.updateSnippet == UpdateSnippetOf(t) &&
    p.vecType == VecTypeOf(t) &&
    p.returnValue == ReturnValueOf(t) &&
    p.windowSize > 0 &&
    0 <= p.windowSizeNearestVec4 && p.windowSizeNearestVec4 % 4 == 0 &&
    0 <= p.windowSizeVec4Remainder < 4 &&
    p.windowSizeNearestVec4 + p.windowSizeVec4Remainder == p.windowSize
  }

  lemma BuildIsBuiltFor(info: ReduceInfo, t: ReduceType)
    requires info.windowSize > 0
    ensures BuiltFor(Build(info, t), t)
  {
    LaneSplit(info, t);
  }

  lemma Fold4(t: ReduceType, a: Ext, g: seq<Ext>)
    requires |g| == 4
    ensures Fold(t, a, g) == Step(t, Step(t, Step(t, Step(t, a, g[0]), g[1]), g[2]), g[3])
  {
    assert g[..3][..2] == g[..2] && g[..3][2] == g[2];
    assert g[..2][..1] == g[..1] && g[..2][1] == g[1];
    assert g[..1][..0] == [] && g[..1][0] == g[0];
    assert Fold(t, a, g[..1]) == Step(t, a, g[0]);
    assert Fold(t, a, g[..2]) == Step(t, Fold(t, a, g[..1]), g[1]);
    assert Fold(t, a, g[..3]) == Step(t, Fold(t, a, g[..2]), g[2]);
  }

  /** Before any group, `setOutput` would report the neutral value. */
  lemma InitialOutputIsNeutral(p: Program, t: ReduceType)
    requires BuiltFor(p, t)
    ensures SetOutputValue(p.returnValue, InitialAccumulators(p)) == InitializationValue(t)
  {
  }

  /** Lowering one lane to `min(g, lane)` lowers the horizontal minimum to
      `min(minimum, g)`. */
  lemma MinLaneStep(m: Vec4, g: Ext)
    ensures HorizontalMin(m.(x := GlslMin(g, m.x))) == GlslMin(HorizontalMin(m), g)
    ensures HorizontalMin(m.(y := GlslMin(g, m.y))) == GlslMin(HorizontalMin(m), g)
    ensures HorizontalMin(m.(z := GlslMin(g, m.z))) == GlslMin(HorizontalMin(m), g)
    ensures HorizontalMin(m.(w := GlslMin(g, m.w))) == GlslMin(HorizontalMin(m), g)
  {
    var a := GlslMin(m.x, m.y);
    MinRotate(m.x, m.y, g);
    MinRotate(a, m.z, g);
    MinRotate(GlslMin(a, m.z), m.w, g);
  }

  /** Raising one lane to `max(g, lane)` raises the horizontal maximum to
      `max(maximum, g)`. */
  lemma MaxLaneStep(m: Vec4, g: Ext)
    ensures HorizontalMax(m.(x := GlslMax(g, m.x))) == GlslMax(HorizontalMax(m), g)
    ensures HorizontalMax(m.(y := GlslMax(g, m.y))) == GlslMax(HorizontalMax(m), g)
    ensures HorizontalMax(m.(z := GlslMax(g, m.z))) == GlslMax(HorizontalMax(m), g)
    ensures HorizontalMax(m.(w := GlslMax(g, m.w))) == GlslMax(HorizontalMax(m), g)
  {
    var a := GlslMax(m.x, m.y);
    MaxRotate(m.x, m.y, g);
    MaxRotate(a, m.z, g);
    MaxRotate(GlslMax(a, m.z), m.w, g);
  }

  /** `sumValue += dot(values, ones)` adds the four values one after the other. */
  lemma SumGroup(s: Ext, g: seq<Ext>)
    requires |g| == 4
    ensures Add(s, DotOnes(Vec4(g[0], g[1], g[2], g[3]))) == Fold(Sum, s, g)
  {
    Fold4(Sum, s, g);
    AddAssoc(s, Add(Add(g[0], g[1]), g[2]), g[3]);
    AddAssoc(s, Add(g[0], g[1]), g[2]);
    AddAssoc(s, g[0], g[1]);
  }

  /** Taking the lanewise minimum with four values, then the horizontal minimum,
      is folding the four values into the horizontal minimum one after the
      other. */
  lemma MinGroup(m: Vec4, g: seq<Ext>)
    requires |g| == 4
    ensures HorizontalMin(Lanewise(MinOp, Vec4(g[0], g[1], g[2], g[3]), m)) == Fold(Min, HorizontalMin(m), g)
  {
    Fold4(Min, HorizontalMin(m), g);
    var m1 := m.(x := GlslMin(g[0], m.x));
    var m2 := m1.(y := GlslMin(g[1], m.y));
    var m3 := m2.(z := GlslMin(g[2], m.z));
    MinLaneStep(m, g[0]);
    MinLaneStep(m1, g[1]);
    MinLaneStep(m2, g[2]);
    MinLaneStep(m3, g[3]);
  }

  /** The same for the maximum. */
  lemma MaxGroup(m: Vec4, g: seq<Ext>)
    requires |g| == 4
    ensures HorizontalMax(Lanewise(MaxOp, Vec4(g[0], g[1], g[2], g[3]), m)) == Fold(Max, HorizontalMax(m), g)
  {
    Fold4(Max, HorizontalMax(m), g);
    var m1 := m.(x := GlslMax(g[0], m.x));
    var m2 := m1.(y := GlslMax(g[1], m.y));
    var m3 := m2.(z := GlslMax(g[2], m.z));
    MaxLaneStep(m, g[0]);
    MaxLaneStep(m1, g[1]);
    MaxLaneStep(m2, g[2]);
    MaxLaneStep(m3, g[3]);
  }

  /** The all snippet keeps `allValue` at 1.0 exactly when it was 1.0 and all four
      values are nonzero, as four steps of the naive reduction do, and leaves
      it a boolean. */
  lemma AllGroup(a: Ext, g: seq<Ext>)
    requires |g| == 4 && IsBool(a)
    ensures var b := BVec4(Truthy(g[0]), Truthy(g[1]), Truthy(g[2]), Truthy(g[3]));
      var r := if Le(Fin(1), a) && Le(Fin(1), if AllOf(b) then Fin(1) else Fin(0)) then Fin(1) else Fin(0);
      r == Fold(All, a, g) && IsBool(r)
  {
    Fold4(All, a, g);
  }

  /** One run of the update snippet on four values advances the reported
      value exactly as four steps of the naive reduction do. */
  lemma GroupUpdate(p: Program, t: ReduceType, acc: Accumulators, g: seq<Ext>)
    requires BuiltFor(p, t) && |g| == 4
    requires t == All ==> IsBool(acc.allValue)
    ensures var acc' := Update(p.updateSnippet, Pack(p.vecType, g[0], g[1], g[2], g[3]), acc);
      SetOutputValue(p.returnValue, acc') == Fold(t, SetOutputValue(p.returnValue, acc), g) &&
      (t == All ==> IsBool(acc'.allValue))
  {
    match t
    case Sum => SumGroup(acc.sumValue, g);
    case Min => MinGroup(acc.minMaxValue, g);
    case Max => MaxGroup(acc.minMaxValue, g);
    case All => AllGroup(acc.allValue, g);
  }

  /** Every index a window of a valid output cell reads can be passed to
      `getValue` (either the guard is there, or the index lies inside the row),
      and `getValue` returns the window's element there, padded with the
      neutral value past the row's end. */
  lemma GetValueReadsWindow(p: Program, info: ReduceInfo, t: ReduceType, x: seq<seq<int>>,
                            batch: nat, outIdx: nat, inOffset: int, k: int)
    requires info.windowSize > 0 && inOffset == outIdx * info.windowSize
    requires p.checkOutOfBounds == CheckOutOfBounds(info) && p.initializationValue == InitializationValue(t)
    requires batch < |x| && |x[batch]| == info.inSize && outIdx < OutSize(info.inSize, info.windowSize)
    requires 0 <= k < info.windowSize
    ensures ReadsAt(p, x, batch, inOffset, Window(x[batch], inOffset, info.windowSize, InitializationValue(t)), k)
  {
    if info.inSize % info.windowSize == 0 {
      EvenWindowsInBounds(info, outIdx, k);
    }
  }

  /** `getValue` at `inOffset + k` is defined and returns `w[k]`, for every `k`
      of the window `w`. */
  ghost predicate ReadsWindow(p: Program, x: seq<seq<int>>, batch: nat, inOffset: int, w: seq<Ext>) {
    batch < |x| && forall k :: 0 <= k < |w| ==> ReadsAt(p, x, batch, inOffset, w, k)
  }

  /** `getValue` at `inOffset + k` is defined and returns `w[k]`. */
  ghost predicate ReadsAt(p: Program, x: seq<seq<int>>, batch: nat, inOffset: int, w: seq<Ext>, k: int) {
    batch < |x| && 0 <= k < |w| &&
    CanGetValue(p, x, batch, inOffset + k) && GetValue(p, x, batch, inOffset + k) == w[k]
  }

  lemma ReadAt(p: Program, x: seq<seq<int>>, batch: nat, inOffset: int, w: seq<Ext>, k: int)
    requires ReadsWindow(p, x, batch, inOffset, w) && 0 <= k < |w|
    ensures CanGetValue(p, x, batch, inOffset + k) && GetValue(p, x, batch, inOffset + k) == w[k]
  {
    assert ReadsAt(p, x, batch, inOffset, w, k);
  }

  /** A whole group: the update snippet run on elements `i .. i + 3` of the
      window takes the reported value from the naive reduction of the first `i`
      elements to that of the first `i + 4`. */
  lemma WholeGroup(p: Program, t: ReduceType, acc: Accumulators, w: seq<Ext>, i: nat, values: Values)
    requires BuiltFor(p, t) && i + 4 <= |w|
    requires t == All ==> IsBool(acc.allValue)
    requires values == Pack(p.vecType, w[i], w[i + 1], w[i + 2], w[i + 3])
    requires SetOutputValue(p.returnValue, acc) == Naive(t, w[..i])
    ensures var acc' := Update(p.updateSnippet, values, acc);
      SetOutputValue(p.returnValue, acc') == Naive(t, w[..i + 4]) && (t == All ==> IsBool(acc'.allValue))
  {
    var g := w[i..i + 4];
    GroupUpdate(p, t, acc, g);
    FoldAppend(t, InitializationValue(t), w[..i], g);
    assert w[..i] + g == w[..i + 4];
  }

  /** The four lanes of the tail group: the window's elements from `nv` on,
      then the neutral value. */
  function TailLanes(w: seq<Ext>, nv: nat, init: Ext): (g: seq<Ext>)
    requires nv <= |w| <= nv + 4
    ensures |g| == 4
  {
    w[nv..] + Repeat(init, 4 - (|w| - nv))
  }

  /** Lane by lane, the tail group holds the elements that remain, then padding. */
  lemma TailLanesShape(w: seq<Ext>, nv: nat, init: Ext)
    requires nv <= |w| < nv + 4
    ensures var g, rem := TailLanes(w, nv, init), |w| - nv;
      g[0] == (if rem >= 1 then w[nv] else init) &&
      g[1] == (if rem >= 2 then w[nv + 1] else init) &&
      g[2] == (if rem >= 3 then w[nv + 2] else init) &&
      g[3] == init
  {
  }

  /** Folding the padded tail lanes into the reduction of the whole groups
      finishes the reduction of the window: the padding changes nothing. */
  lemma TailPadding(t: ReduceType, w: seq<Ext>, nv: nat)
    requires nv <= |w| < nv + 4
    ensures Fold(t, Naive(t, w[..nv]), TailLanes(w, nv, InitializationValue(t))) == Naive(t, w)
  {
    var init := InitializationValue(t);
    var tail := w[nv..];
    var a := Naive(t, w[..nv]);
    if t == All {
      AllFoldIsBool(init, w[..nv]);
    }
    PaddingIsNeutral(t, a, tail, 4 - |tail|);
    FoldAppend(t, init, w[..nv], tail);
    assert w[..nv] + tail == w;
  }

  /** The tail group: the last `rem` elements of the window, the other lanes
      holding the neutral value, run through the same update snippet, finish
      the naive reduction of the whole window. */
  lemma TailGroup(p: Program, t: ReduceType, acc: Accumulators, w: seq<Ext>)
    requires BuiltFor(p, t) && |w| == p.windowSize
    requires t == All ==> IsBool(acc.allValue)
    requires SetOutputValue(p.returnValue, acc) == Naive(t, w[..p.windowSizeNearestVec4])
    ensures var g := TailLanes(w, p.windowSizeNearestVec4, p.initializationValue);
      SetOutputValue(p.returnValue, Update(p.updateSnippet, Pack(p.vecType, g[0], g[1], g[2], g[3]), acc)) ==
      Naive(t, w)
  {
    GroupUpdate(p, t, acc, TailLanes(w, p.windowSizeNearestVec4, p.initializationValue));
    TailPadding(t, w, p.windowSizeNearestVec4);
  }

  /** One whole group of `main`'s loop: `getValue` at the four consecutive
      indices from `inOffset + i`, packed into the snippet's vector type.
      Returns the indices read, in order, and the packed values, which are the
      window's elements `i .. i + 3`. */
  method ReadGroup(p: Program, x: seq<seq<int>>, batch: nat, inOffset: int, ghost w: seq<Ext>, i: nat)
    returns (idx: seq<int>, values: Values)
    requires ReadsWindow(p, x, batch, inOffset, w) && i + 4 <= |w|
    ensures idx == [inOffset + i, inOffset + i + 1, inOffset + i + 2, inOffset + i + 3]
    ensures values == Pack(p.vecType, w[i], w[i + 1], w[i + 2], w[i + 3])
  {
    ReadAt(p, x, batch, inOffset, w, i);
    ReadAt(p, x, batch, inOffset, w, i + 1);
    ReadAt(p, x, batch, inOffset, w, i + 2);
    ReadAt(p, x, batch, inOffset, w, i + 3);
    var inIdx := inOffset + i;
    idx := [inIdx, inIdx + 1, inIdx + 2, inIdx + 3];
    values := Pack(p.vecType,
      GetValue(p, x, batch, idx[0]),
      GetValue(p, x, batch, idx[1]),
      GetValue(p, x, batch, idx[2]),
      GetValue(p, x, batch, idx[3]));
  }

  /** The loop of `main` over the whole 4-wide groups of the window `w`, which
      starts at `inOffset` in row `batch`. Returns the accumulators after it, the
      indices passed to `getValue`, in order, and how many times the update
      snippet ran. */
  method WholeGroups(p: Program, x: seq<seq<int>>, batch: nat, inOffset: int, ghost w: seq<Ext>, ghost t: ReduceType)
    returns (acc: Accumulators, visited: seq<int>, updates: nat)
    requires BuiltFor(p, t) && |w| == p.windowSize && ReadsWindow(p, x, batch, inOffset, w)
    ensures SetOutputValue(p.returnValue, acc) == Naive(t, w[..p.windowSizeNearestVec4])
    ensures t == All ==> IsBool(acc.allValue)
    ensures visited == Range(inOffset, p.windowSizeNearestVec4)
    ensures 4 * updates == p.windowSizeNearestVec4
  {
    var nv := p.windowSizeNearestVec4;
    acc := InitialAccumulators(p);
    visited, updates := [], 0;
    RangeEmpty(inOffset);
    InitialOutputIsNeutral(p, t);
    assert w[..0] == [];

    var i := 0;
    while i < nv
      invariant 0 <= i <= nv && i == 4 * updates
      invariant visited == Range(inOffset, i)
      invariant SetOutputValue(p.returnValue, acc) == Naive(t, w[..i])
      invariant t == All ==> IsBool(acc.allValue)
    {
      NextGroupFits(i, nv, updates);
      var idx, values := ReadGroup(p, x, batch, inOffset, w, i);
      WholeGroup(p, t, acc, w, i, values);
      acc := Update(p.updateSnippet, values, acc);
      RangeExtend(inOffset, i);
      visited := visited + idx;
      updates := updates + 1;
      i := i + 4;
    }
  }

  /** The tail step of `main`: `if (remainder == 1) { ... } else if (remainder == 2)
      { ... } else if (remainder == 3) { ... }`, each branch packing the last
      elements of the window with neutral padding and running the update
      snippet once. Returns the new accumulators, the indices passed to
      `getValue` and how many times the update snippet ran. */
  method TailStep(p: Program, x: seq<seq<int>>, batch: nat, inOffset: int, acc: Accumulators,
                  ghost w: seq<Ext>, ghost t: ReduceType)
    returns (acc': Accumulators, read: seq<int>, updates: nat)
    requires BuiltFor(p, t) && |w| == p.windowSize && ReadsWindow(p, x, batch, inOffset, w)
    requires t == All ==> IsBool(acc.allValue)
    requires SetOutputValue(p.returnValue, acc) == Naive(t, w[..p.windowSizeNearestVec4])
    ensures SetOutputValue(p.returnValue, acc') == Naive(t, w)
    ensures read == Range(inOffset + p.windowSizeNearestVec4, p.windowSizeVec4Remainder)
    ensures updates == if p.windowSizeVec4Remainder == 0 then 0 else 1
  {
    var nv := p.windowSizeNearestVec4;
    var init := p.initializationValue;
    var inIdx := inOffset + nv;
    var rem := p.windowSizeVec4Remainder;
    RangeEmpty(inIdx);
    RangeShort(inIdx);
    acc', read, updates := acc, [], 0;
    if rem == 1 {
      ReadAt(p, x, batch, inOffset, w, nv);
      var idx := [inIdx];
      var values := Pack(p.vecType, GetValue(p, x, batch, idx[0]), init, init, init);
      TailLanesShape(w, nv, init);
      ghost var g := TailLanes(w, nv, init);
      assert values == Pack(p.vecType, g[0], g[1], g[2], g[3]);
      TailGroup(p, t, acc, w);
      acc' := Update(p.updateSnippet, values, acc);
      read, updates := idx, 1;
    } else if rem == 2 {
      ReadAt(p, x, batch, inOffset, w, nv);
      ReadAt(p, x, batch, inOffset, w, nv + 1);
      var idx := [inIdx, inIdx + 1];
      var values := Pack(p.vecType, GetValue(p, x, batch, idx[0]), GetValue(p, x, batch, idx[1]), init, init);
      TailLanesShape(w, nv, init);
      ghost var g := TailLanes(w, nv, init);
      assert values == Pack(p.vecType, g[0], g[1], g[2], g[3]);
      TailGroup(p, t, acc, w);
      acc' := Update(p.updateSnippet, values, acc);
      read, updates := idx, 1;
    } else if rem == 3 {
      ReadAt(p, x, batch, inOffset, w, nv);
      ReadAt(p, x, batch, inOffset, w, nv + 1);
      ReadAt(p, x, batch, inOffset, w, nv + 2);
      var idx := [inIdx, inIdx + 1, inIdx + 2];
      var values := Pack(p.vecType, GetValue(p, x, batch, idx[0]), GetValue(p, x, batch, idx[1]),
        GetValue(p, x, batch, idx[2]), init);
      TailLanesShape(w, nv, init);
      ghost var g := TailLanes(w, nv, init);
      assert values == Pack(p.vecType, g[0], g[1], g[2], g[3]);
      TailGroup(p, t, acc, w);
      acc' := Update(p.updateSnippet, values, acc);
      read, updates := idx, 1;
    } else {
      assert w[..nv] == w;
    }
  }

  /** The inputs a run of `main` for output cell `(batch, outIdx)` may assume:
      `p` is the program built from `info` and `t`, `x` holds `batchSize` rows of
      `inSize` elements, and the cell lies inside `p.outputShape`. */
  predicate ValidCell(p: Program, x: seq<seq<int>>, batch: nat, outIdx: nat, info: ReduceInfo, t: ReduceType) {
    info.windowSize > 0 && p == Build(info, t) &&
    |x| == info.batchSize && (forall b :: 0 <= b < |x| ==> |x[b]| == info.inSize) &&
    batch < p.outputShape[0] && outIdx < p.outputShape[1]
  }

  /** What a valid cell gives `main`: the cell's row exists and has `inSize`
      elements, the cell is one of the row's windows, and `p` makes the
      constructor's choices for `t`. */
  lemma ValidCellFacts(p: Program, x: seq<seq<int>>, batch: nat, outIdx: nat, info: ReduceInfo, t: ReduceType)
    requires ValidCell(p, x, batch, outIdx, info, t)
    ensures batch < |x| && |x[batch]| == info.inSize
    ensures outIdx < OutSize(info.inSize, info.windowSize)
    ensures p.windowSize == info.windowSize && BuiltFor(p, t)
    ensures p.checkOutOfBounds == CheckOutOfBounds(info)
  {
    BuildIsBuiltFor(info, t);
  }

  /** The program built for a valid cell reads that cell's window. */
  lemma CellReadsWindow(p: Program, x: seq<seq<int>>, batch: nat, outIdx: nat, inOffset: nat, info: ReduceInfo, t: ReduceType)
    requires info.windowSize > 0 && inOffset == outIdx * info.windowSize
    requires p.checkOutOfBounds == CheckOutOfBounds(info) && p.initializationValue == InitializationValue(t)
    requires batch < |x| && |x[batch]| == info.inSize && outIdx < OutSize(info.inSize, info.windowSize)
    ensures ReadsWindow(p, x, batch, inOffset, Window(x[batch], inOffset, info.windowSize, InitializationValue(t)))
  {
    var w := Window(x[batch], inOffset, info.windowSize, InitializationValue(t));
    assert batch < |x|;
    forall k | 0 <= k < |w|
      ensures ReadsAt(p, x, batch, inOffset, w, k)
    {
      GetValueReadsWindow(p, info, t, x, batch, outIdx, inOffset, k);
    }
  }

  /** The body of `main` after `inOffset` is known: the loop over whole groups,
      the tail group and the value handed to `setOutput`, for the window `w` that
      starts at `inOffset` in row `batch`. Besides that value it reports the
      indices passed to `getValue`, in order, and how many times the update
      snippet ran. */
  method RunWindow(p: Program, x: seq<seq<int>>, batch: nat, inOffset: int, ghost w: seq<Ext>, ghost t: ReduceType)
    returns (out: Ext, visited: seq<int>, updates: nat)
    requires BuiltFor(p, t) && |w| == p.windowSize && ReadsWindow(p, x, batch, inOffset, w)
    ensures out == Naive(t, w)
    ensures visited == Range(inOffset, |w|)
    ensures updates == |w| / 4 + (if |w| % 4 == 0 then 0 else 1)
  {
    var acc, read, tailUpdates;
    acc, visited, updates := WholeGroups(p, x, batch, inOffset, w, t);
    acc, read, tailUpdates := TailStep(p, x, batch, inOffset, acc, w, t);
    RangeAppend(inOffset, p.windowSizeNearestVec4, p.windowSizeVec4Remainder);
    GroupCount(p.windowSize, p.windowSizeNearestVec4, p.windowSizeVec4Remainder, updates);
    visited := visited + read;
    updates := updates + tailUpdates;
    out := SetOutputValue(p.returnValue, acc);
  }

  /** The emitted `main` for output cell `(batch, outIdx)` of the program `p`
      built from `info` and `t`: the value handed to `setOutput` is the naive
      reduction of the cell's padded window and the reduction of the row
      elements the window covers; every index of the window is passed to
      `getValue` once, in order; the update snippet runs once per group of 4
      and once more for a partial group. */
  method RunMain(p: Program, x: seq<seq<int>>, batch: nat, outIdx: nat, ghost info: ReduceInfo, ghost t: ReduceType)
    returns (out: Ext, visited: seq<int>, updates: nat)
    requires ValidCell(p, x, batch, outIdx, info, t)
    ensures out == Naive(t, Window(x[batch], outIdx * info.windowSize, info.windowSize, InitializationValue(t)))
    ensures var lo := outIdx * info.windowSize;
      var hi := if lo + info.windowSize <= info.inSize then lo + info.windowSize else info.inSize;
      lo < hi && out == Reference(t, x[batch][lo..hi])
    ensures visited == Range(outIdx * info.windowSize, info.windowSize)
    ensures updates == info.windowSize / 4 + (if info.windowSize % 4 == 0 then 0 else 1)
  {
    ValidCellFacts(p, x, batch, outIdx, info, t);
    WindowStartsInRow(info, outIdx);
    var inOffset: nat := outIdx * p.windowSize;
    ghost var w := Window(x[batch], inOffset, p.windowSize, InitializationValue(t));
    CellReadsWindow(p, x, batch, outIdx, inOffset, info, t);
    out, visited, updates := RunWindow(p, x, batch, inOffset, w, t);
    PaddedWindowMatchesReference(t, x[batch], inOffset, p.windowSize);
  }
}
