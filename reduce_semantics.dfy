/** What a windowed reduction means, independently of how the kernel computes
    it: a naive left-to-right fold over the window (elements past the end of
    the row counting as the neutral value), and a reference on the integers of
    the row that lie inside the window. */
module ReduceSemantics {
  import opened ExtFloat
  import opened ReduceProgram

  /** One element of the naive reduction. For all, the accumulator is a
      boolean encoded as 1.0 / 0.0 and an element is true when nonzero. */
  function Step(t: ReduceType, acc: Ext, v: Ext): Ext {
    match t
    case Sum => Add(acc, v)
    case Min => GlslMin(acc, v)
    case Max => GlslMax(acc, v)
    case All => if Le(Fin(1), acc) && Truthy(v) then Fin(1) else Fin(0)
  }

  /** Left fold of `Step`, one element at a time, from the first element on. */
  function Fold(t: ReduceType, acc: Ext, s: seq<Ext>): Ext
    decreases |s|
  {
    if |s| == 0 then acc else Step(t, Fold(t, acc, s[..|s| - 1]), s[|s| - 1])
  }

  /** The naive reduction: a fold started from the neutral value. */
  function Naive(t: ReduceType, s: seq<Ext>): Ext {
    Fold(t, InitializationValue(t), s)
  }

  function Lift(s: seq<int>): (r: seq<Ext>)
    ensures |r| == |s| && forall i :: 0 <= i < |s| ==> r[i] == Fin(s[i])
  {
    seq(|s|, i requires 0 <= i < |s| => Fin(s[i]))
  }

  /** The `windowSize` elements of `row` from `inOffset` on, each one past the end
      of the row replaced by `pad`. */
  function Window(row: seq<int>, inOffset: nat, windowSize: nat, pad: Ext): (w: seq<Ext>)
    ensures |w| == windowSize
    ensures forall k :: 0 <= k < windowSize && inOffset + k < |row| ==> w[k] == Fin(row[inOffset + k])
    ensures forall k :: 0 <= k < windowSize && inOffset + k >= |row| ==> w[k] == pad
  {
    seq(windowSize, k requires 0 <= k < windowSize =>
      if inOffset + k < |row| then Fin(row[inOffset + k]) else pad)
  }

  function SumOf(s: seq<int>): int
    decreases |s|
  {
    if |s| == 0 then 0 else SumOf(s[..|s| - 1]) + s[|s| - 1]
  }

  function MinOf(s: seq<int>): (m: int)
    requires |s| > 0
    ensures m in s && forall i :: 0 <= i < |s| ==> m <= s[i]
    decreases |s|
  {
    if |s| == 1 then s[0]
    else
      var m := MinOf(s[..|s| - 1]);
      if s[|s| - 1] < m then s[|s| - 1] else m
  }

  function MaxOf(s: seq<int>): (m: int)
    requires |s| > 0
    ensures m in s && forall i :: 0 <= i < |s| ==> s[i] <= m
    decreases |s|
  {
    if |s| == 1 then s[0]
    else
      var m := MaxOf(s[..|s| - 1]);
      if m < s[|s| - 1] then s[|s| - 1] else m
  }

  predicate AllNonzero(s: seq<int>) {
    forall i :: 0 <= i < |s| ==> s[i] != 0
  }

  /** The reduction of a nonempty run of row elements, in plain integers:
      their sum, their least or greatest element, or 1 when every one is
      nonzero and 0 otherwise. */
  function Reference(t: ReduceType, s: seq<int>): Ext
    requires |s| > 0
  {
    match t
    case Sum => Fin(SumOf(s))
    case Min => Fin(MinOf(s))
    case Max => Fin(MaxOf(s))
    case All => if AllNonzero(s) then Fin(1) else Fin(0)
  }

  /** `n` copies of `v`: the padding lanes and the padding past the row's end. */
  function Repeat(v: Ext, n: nat): (r: seq<Ext>)
    ensures |r| == n && forall i :: 0 <= i < n ==> r[i] == v
  {
    seq(n, _ => v)
  }

  predicate IsBool(a: Ext) {
    a == Fin(0) || a == Fin(1)
  }

  /** Folding `s + u` is folding `u` from where folding `s` left off. */
  lemma {:induction false} FoldAppend(t: ReduceType, a: Ext, s: seq<Ext>, u: seq<Ext>)
    ensures Fold(t, a, s + u) == Fold(t, Fold(t, a, s), u)
    decreases |u|
  {
    if |u| == 0 {
      assert s + u == s;
    } else {
      var u' := u[..|u| - 1];
      assert (s + u)[..|s + u| - 1] == s + u';
      FoldAppend(t, a, s, u');
    }
  }

  /** The neutral value is a two-sided identity of each reduce type's step: on
      the right it leaves every accumulator unchanged (for all, every boolean
      one), on the left it turns an element into itself (for all, into its
      truth value). */
  lemma InitializationValueIsNeutral(t: ReduceType, a: Ext, x: int)
    requires t == All ==> IsBool(a)
    ensures Step(t, a, InitializationValue(t)) == a
    ensures t != All ==> Step(t, InitializationValue(t), Fin(x)) == Fin(x)
    ensures t == All ==> Step(t, InitializationValue(t), Fin(x)) == (if x != 0 then Fin(1) else Fin(0))
  {
  }

  /** For all, the accumulator is a boolean after every step. */
  lemma AllFoldIsBool(a: Ext, s: seq<Ext>)
    requires IsBool(a)
    ensures IsBool(Fold(All, a, s))
  {
  }

  /** Neutral padding never changes a fold. */
  lemma {:induction false} PaddingIsNeutral(t: ReduceType, a: Ext, s: seq<Ext>, n: nat)
    requires t == All ==> IsBool(a)
    ensures Fold(t, a, s + Repeat(InitializationValue(t), n)) == Fold(t, a, s)
    decreases n
  {
    var init := InitializationValue(t);
    var pad := Repeat(init, n);
    if n == 0 {
      assert s + pad == s;
    } else {
      var pad' := Repeat(init, n - 1);
      var sp := s + pad;
      assert sp[..|sp| - 1] == s + pad';
      assert sp[|sp| - 1] == init;
      assert Fold(t, a, sp) == Step(t, Fold(t, a, s + pad'), init);
      PaddingIsNeutral(t, a, s, n - 1);
      var b := Fold(t, a, s);
      if t == All {
        AllFoldIsBool(a, s);
      }
      InitializationValueIsNeutral(t, b, 0);
    }
  }

  /** A window that starts inside the row is the row's elements from there up to
      the window's end or the row's end, followed by padding. */
  lemma WindowSplit(row: seq<int>, inOffset: nat, windowSize: nat, pad: Ext)
    requires inOffset <= |row|
    ensures var hi := if inOffset + windowSize <= |row| then inOffset + windowSize else |row|;
      Window(row, inOffset, windowSize, pad) ==
      Lift(row[inOffset..hi]) + Repeat(pad, windowSize - (hi - inOffset))
  {
  }

  /** The reference of a run extends by one step of the naive reduction. */
  lemma ReferenceStep(t: ReduceType, s: seq<int>)
    requires |s| > 1
    ensures Reference(t, s) == Step(t, Reference(t, s[..|s| - 1]), Fin(s[|s| - 1]))
  {
    var n := |s|;
    var s' := s[..n - 1];
    if t == All {
      if AllNonzero(s') && s[n - 1] != 0 {
        forall i | 0 <= i < n ensures s[i] != 0 {
          if i < n - 1 { assert s[i] == s'[i]; }
        }
      }
      if AllNonzero(s) {
        forall i | 0 <= i < n - 1 ensures s'[i] != 0 {
          assert s'[i] == s[i];
        }
      }
    }
  }

  /** The reference of a single element is one step from the neutral value. */
  lemma ReferenceSingle(t: ReduceType, s: seq<int>)
    requires |s| == 1
    ensures Reference(t, s) == Step(t, InitializationValue(t), Fin(s[0]))
  {
    match t
    case Sum =>
      assert s[..0] == [];
      assert SumOf(s) == s[0];
    case Min =>
      assert MinOf(s) == s[0];
    case Max =>
      assert MaxOf(s) == s[0];
    case All =>
      assert AllNonzero(s) <==> s[0] != 0;
  }

  /** Naively folding the lifted elements of a nonempty run gives the integer
      reference. */
  lemma {:induction false} NaiveMatchesReference(t: ReduceType, s: seq<int>)
    requires |s| > 0
    ensures Naive(t, Lift(s)) == Reference(t, s)
    decreases |s|
  {
    var n := |s|;
    var s' := s[..n - 1];
    var init := InitializationValue(t);
    assert Lift(s)[..n - 1] == Lift(s');
    assert Naive(t, Lift(s)) == Step(t, Naive(t, Lift(s')), Fin(s[n - 1]));
    if n == 1 {
      assert Lift(s') == [];
      ReferenceSingle(t, s);
    } else {
      NaiveMatchesReference(t, s');
      ReferenceStep(t, s);
    }
  }

  /** The naive reduction of a padded window that starts inside the row is the
      reference on the row elements the window covers: padding with the neutral
      value is the same as leaving the missing elements out. */
  lemma PaddedWindowMatchesReference(t: ReduceType, row: seq<int>, inOffset: nat, windowSize: nat)
    requires inOffset < |row| && windowSize > 0
    ensures var hi := if inOffset + windowSize <= |row| then inOffset + windowSize else |row|;
      Naive(t, Window(row, inOffset, windowSize, InitializationValue(t))) ==
      Reference(t, row[inOffset..hi])
  {
    var hi := if inOffset + windowSize <= |row| then inOffset + windowSize else |row|;
    var init := InitializationValue(t);
    WindowSplit(row, inOffset, windowSize, init);
    PaddingIsNeutral(t, init, Lift(row[inOffset..hi]), windowSize - (hi - inOffset));
    NaiveMatchesReference(t, row[inOffset..hi]);
  }
}
