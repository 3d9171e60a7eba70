/** The interpreter's result, stated and proved, on concrete rows: whole
    windows for sum, the windows of a guarded row (with a partial last window)
    for max, one whole group and a tail of one for min, and all on rows with
    and without a zero. */
module ReduceCases {
  import opened ExtFloat
  import opened ReduceProgram
  import opened ReduceSemantics
  import opened ReduceKernel

  /** Sum, windows of 4 over a row of 8: `[1, 2, 3, 4]` and `[5, 6, 7, 8]`. */
  method SumCase() {
    var info := ReduceInfo(4, 1, 8);
    var p := Build(info, Sum);
    assert p.outputShape == [1, 2] && p.checkOutOfBounds == None;
    var x := [[1, 2, 3, 4, 5, 6, 7, 8]];
    var out0, _, _ := RunMain(p, x, 0, 0, info, Sum);
    assert x[0][0..4] == [1, 2, 3, 4];
    assert SumOf([1, 2, 3, 4]) == 10 by {
      assert [1, 2, 3, 4][..3] == [1, 2, 3] && [1, 2, 3][..2] == [1, 2] && [1, 2][..1] == [1];
    }
    assert out0 == Fin(10);
    var out1, _, _ := RunMain(p, x, 0, 1, info, Sum);
    assert x[0][4..8] == [5, 6, 7, 8];
    assert SumOf([5, 6, 7, 8]) == 26 by {
      assert [5, 6, 7, 8][..3] == [5, 6, 7] && [5, 6, 7][..2] == [5, 6] && [5, 6][..1] == [5];
    }
    assert out1 == Fin(26);
  }

  /** Max, windows of 3 over a row of 7: the guard is emitted; the first
      window gives its maximum 4. */
  method MaxCase() {
    var info := ReduceInfo(3, 1, 7);
    var p := Build(info, Max);
    assert p.outputShape == [1, 3] && p.checkOutOfBounds == Some(7);
    var x := [[3, 1, 4, 1, 5, 9, 2]];
    var out0, _, _ := RunMain(p, x, 0, 0, info, Max);
    assert x[0][0..3] == [3, 1, 4];
    assert out0 == Fin(4);
  }

  /** Max, the same program and row: the middle window gives its maximum 9. */
  method MaxMiddleCase() {
    var info := ReduceInfo(3, 1, 7);
    var p := Build(info, Max);
    var x := [[3, 1, 4, 1, 5, 9, 2]];
    var out1, _, _ := RunMain(p, x, 0, 1, info, Max);
    assert x[0][3..6] == [1, 5, 9];
    assert out1 == Fin(9);
  }

  /** Max, the same program and row: the last window holds the single element 2,
      and reads past the row end fall back to the neutral value. */
  method MaxGuardCase() {
    var info := ReduceInfo(3, 1, 7);
    var p := Build(info, Max);
    var x := [[3, 1, 4, 1, 5, 9, 2]];
    var out2, visited, updates := RunMain(p, x, 0, 2, info, Max);
    assert x[0][6..7] == [2];
    assert out2 == Fin(2);
    assert visited == [6, 7, 8] && updates == 1;
  }

  /** Min, one window of 5 over a row of 5: no guard, one whole group and a tail
      of one. */
  method MinCase() {
    var info := ReduceInfo(5, 1, 5);
    var p := Build(info, Min);
    assert p.outputShape == [1, 1] && p.checkOutOfBounds == None;
    var x := [[9, 2, 7, 4, 1]];
    var out, _, updates := RunMain(p, x, 0, 0, info, Min);
    assert x[0][0..5] == [9, 2, 7, 4, 1];
    assert out == Fin(1);
    assert updates == 2;
  }

  /** All, one window of 4: a zero makes the window false. */
  method AllCase() {
    var info := ReduceInfo(4, 2, 4);
    var p := Build(info, All);
    var x := [[1, 1, 0, 1], [1, 1, 1, 1]];
    var out0, _, _ := RunMain(p, x, 0, 0, info, All);
    assert x[0][0..4] == [1, 1, 0, 1] && x[0][0..4][2] == 0;
    assert out0 == Fin(0);
    var out1, _, _ := RunMain(p, x, 1, 0, info, All);
    assert x[1][0..4] == [1, 1, 1, 1];
    assert out1 == Fin(1);
  }
}
