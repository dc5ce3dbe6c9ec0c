/**
 * The iterative diffusion grid that `ComputerStrategyOpenSpace`, `DiffusionThresholdCalculator`
 * and `ComputerStrategyMinMaxDiffusion` each compute with the same code: 1 on every free
 * cell, then repeatedly every cell becomes the sum of its on-board eight neighbours.
 */
module Diffusion {
  import opened Boards
  import opened Ints

  /** An 8x8 grid of values, indexed `[row][col]`. */
  type Grid = seq<seq<int>>

  predicate IsGrid(g: Grid)
  {
    |g| == Size && forall r :: 0 <= r < Size ==> |g[r]| == Size
  }

  /** The starting grid: 1 on a free cell, 0 on an occupied one. */
  function InitialGrid(b: BoardValue): (g: Grid)
    requires WellFormed(b)
    ensures IsGrid(g)
  {
    seq(Size, r requires 0 <= r < Size => seq(Size, c requires 0 <= c < Size => if b.occupied[r][c] then 0 else 1))
  }

  /** A cell's value; cells off the board contribute nothing. */
  function At(g: Grid, r: int, c: int): int
    requires IsGrid(g)
  {
    if 0 <= r < Size && 0 <= c < Size then g[r][c] else 0
  }

  /** What offset (dr, dc) adds to the neighbour sum: the centre itself is skipped. */
  function Contribution(g: Grid, r: int, c: int, dr: int, dc: int): int
    requires IsGrid(g)
  {
    if dr == 0 && dc == 0 then 0 else At(g, r + dr, c + dc)
  }

  /** The inner loop's sum over its first `n` offsets dc = -1, 0, 1. */
  function ColumnSum(g: Grid, r: int, c: int, dr: int, n: nat): int
    requires IsGrid(g) && n <= 3
  {
    if n == 0 then 0 else ColumnSum(g, r, c, dr, n - 1) + Contribution(g, r, c, dr, n - 2)
  }

  /** The outer loop's sum over its first `n` offsets dr = -1, 0, 1. */
  function NeighbourPartial(g: Grid, r: int, c: int, n: nat): int
    requires IsGrid(g) && n <= 3
  {
    if n == 0 then 0 else NeighbourPartial(g, r, c, n - 1) + ColumnSum(g, r, c, n - 2, 3)
  }

  /** The value a cell takes in the next iteration. */
  function NeighbourSum(g: Grid, r: int, c: int): int
    requires IsGrid(g)
  {
    NeighbourPartial(g, r, c, 3)
  }

  /** One iteration of the diffusion. */
  function Step(g: Grid): (g': Grid)
    requires IsGrid(g)
    ensures IsGrid(g')
  {
    seq(Size, r requires 0 <= r < Size => seq(Size, c requires 0 <= c < Size => NeighbourSum(g, r, c)))
  }

  /** `k` iterations. */
  function Diffuse(g: Grid, k: nat): (g': Grid)
    requires IsGrid(g)
    ensures IsGrid(g')
  {
    if k == 0 then g else Step(Diffuse(g, k - 1))
  }

  /** `evaluateBoardOpenness`: the grid after `k` iterations from the board's free cells. */
  function Openness(b: BoardValue, k: nat): (g: Grid)
    requires WellFormed(b)
    ensures IsGrid(g)
  {
    Diffuse(InitialGrid(b), k)
  }

  /** The sum of a row, left to right. */
  function RowTotal(s: seq<int>): int
  {
    if s == [] then 0 else RowTotal(s[..|s| - 1]) + s[|s| - 1]
  }

  /** The sum of the first `n` rows. */
  function RowsTotal(g: Grid, n: nat): int
    requires IsGrid(g) && n <= Size
  {
    if n == 0 then 0 else RowsTotal(g, n - 1) + RowTotal(g[n - 1])
  }

  /** The sum of every cell: the `totalScore` loop of `evaluateBoardWithDiffusion`. */
  function Total(g: Grid): int
    requires IsGrid(g)
  {
    RowsTotal(g, Size)
  }

  /** The running maximum of a row, starting from `m`. */
  function RowMax(m: int, s: seq<int>): int
  {
    if s == [] then m else Max(RowMax(m, s[..|s| - 1]), s[|s| - 1])
  }

  /** The running maximum over the first `n` rows, starting from 0. */
  function RowsMax(g: Grid, n: nat): int
    requires IsGrid(g) && n <= Size
  {
    if n == 0 then 0 else RowMax(RowsMax(g, n - 1), g[n - 1])
  }

  /** `getMaxValue`: the largest cell, or 0 when every cell is negative. */
  function GridMax(g: Grid): int
    requires IsGrid(g)
  {
    RowsMax(g, Size)
  }

  function Pow8(k: nat): nat
  {
    if k == 0 then 1 else 8 * Pow8(k - 1)
  }

  // ----- The array code -----

  /** The array holds the grid. */
  predicate Matches(a: array2<int>, g: Grid)
    reads a
  {
    a.Length0 == Size && a.Length1 == Size && IsGrid(g) &&
    forall r, c :: 0 <= r < Size && 0 <= c < Size ==> a[r, c] == g[r][c]
  }

  /** The initialisation loops: 0 on an occupied cell, 1 on a free one. */
  method InitialEvaluation(board: Board) returns (a: array2<int>)
    requires board.Valid()
    ensures fresh(a) && Matches(a, InitialGrid(board.value))
  {
    ghost var g := InitialGrid(board.value);
    a := new int[Size, Size];
    for row := 0 to Size
      invariant forall r, c :: 0 <= r < row && 0 <= c < Size ==> a[r, c] == g[r][c]
    {
      for col := 0 to Size
        invariant forall r, c :: 0 <= r < row && 0 <= c < Size ==> a[r, c] == g[r][c]
        invariant forall c :: 0 <= c < col ==> a[row, c] == g[row][c]
      {
        a[row, col] := if board.IsOccupied(row, col) then 0 else 1;
      }
    }
  }

  /** The `dr`/`dc` loops for one cell, skipping the centre with `continue`. */
  method NeighbourSumAt(a: array2<int>, ghost g: Grid, row: int, col: int) returns (sum: int)
    requires Matches(a, g) && 0 <= row < Size && 0 <= col < Size
    ensures sum == NeighbourSum(g, row, col)
  {
    sum := 0;
    var dr := -1;
    while dr <= 1
      invariant -1 <= dr <= 2
      invariant sum == NeighbourPartial(g, row, col, dr + 1)
    {
      var dc := -1;
      while dc <= 1
        invariant -1 <= dc <= 2
        invariant sum == NeighbourPartial(g, row, col, dr + 1) + ColumnSum(g, row, col, dr, dc + 1)
      {
        if dr == 0 && dc == 0 {
          dc := dc + 1;
          continue;
        }
        var neighborRow := row + dr;
        var neighborCol := col + dc;
        if 0 <= neighborRow < Size && 0 <= neighborCol < Size {
          sum := sum + a[neighborRow, neighborCol];
        }
        dc := dc + 1;
      }
      dr := dr + 1;
    }
  }

  /** One iteration: a new array with each cell's neighbour sum. */
  method DiffuseOnce(a: array2<int>, ghost g: Grid) returns (next: array2<int>)
    requires Matches(a, g)
    ensures fresh(next) && Matches(next, Step(g))
  {
    next := new int[Size, Size];
    for row := 0 to Size
      invariant forall r, c :: 0 <= r < row && 0 <= c < Size ==> next[r, c] == Step(g)[r][c]
    {
      for col := 0 to Size
        invariant forall r, c :: 0 <= r < row && 0 <= c < Size ==> next[r, c] == Step(g)[r][c]
        invariant forall c :: 0 <= c < col ==> next[row, c] == Step(g)[row][c]
      {
        var sum := NeighbourSumAt(a, g, row, col);
        next[row, col] := sum;
      }
    }
  }

  /** `evaluateBoardOpenness`: the initial grid, then `iterations` rounds of diffusion. */
  method EvaluateBoardOpenness(board: Board, iterations: nat) returns (evaluation: array2<int>)
    requires board.Valid()
    ensures Matches(evaluation, Openness(board.value, iterations))
  {
    ghost var g0 := InitialGrid(board.value);
    evaluation := InitialEvaluation(board);
    for iteration := 0 to iterations
      invariant Matches(evaluation, Diffuse(g0, iteration))
    {
      evaluation := DiffuseOnce(evaluation, Diffuse(g0, iteration));
    }
  }

  /** The summing loops of `evaluateBoardWithDiffusion`. */
  method SumGrid(a: array2<int>, ghost g: Grid) returns (total: int)
    requires Matches(a, g)
    ensures total == Total(g)
  {
    total := 0;
    for row := 0 to Size
      invariant total == RowsTotal(g, row)
    {
      for col := 0 to Size
        invariant total == RowsTotal(g, row) + RowTotal(g[row][..col])
      {
        assert g[row][..col + 1][..col] == g[row][..col];
        total := total + a[row, col];
      }
      assert g[row][..Size] == g[row];
    }
  }

  /** `getMaxValue`: a running maximum over every cell, starting from 0. */
  method GetMaxValue(a: array2<int>, ghost g: Grid) returns (maxValue: int)
    requires Matches(a, g)
    ensures maxValue == GridMax(g)
  {
    maxValue := 0;
    for row := 0 to Size
      invariant maxValue == RowsMax(g, row)
    {
      for col := 0 to Size
        invariant maxValue == RowMax(RowsMax(g, row), g[row][..col])
      {
        assert g[row][..col + 1][..col] == g[row][..col];
        maxValue := Max(maxValue, a[row, col]);
      }
      assert g[row][..Size] == g[row];
    }
  }

  // ----- Properties -----

  /** Each iteration sets a cell to the sum of its on-board eight neighbours' previous values. */
  lemma NeighbourSumExpanded(g: Grid, r: int, c: int)
    requires IsGrid(g)
    ensures NeighbourSum(g, r, c) ==
      At(g, r - 1, c - 1) + At(g, r - 1, c) + At(g, r - 1, c + 1) +
      At(g, r, c - 1) + At(g, r, c + 1) +
      At(g, r + 1, c - 1) + At(g, r + 1, c) + At(g, r + 1, c + 1)
  {
    forall dr ensures ColumnSum(g, r, c, dr, 3) == Contribution(g, r, c, dr, -1) + Contribution(g, r, c, dr, 0) + Contribution(g, r, c, dr, 1) {
      assert ColumnSum(g, r, c, dr, 1) == Contribution(g, r, c, dr, -1);
      assert ColumnSum(g, r, c, dr, 2) == ColumnSum(g, r, c, dr, 1) + Contribution(g, r, c, dr, 0);
    }
    assert NeighbourPartial(g, r, c, 1) == ColumnSum(g, r, c, -1, 3);
    assert NeighbourPartial(g, r, c, 2) == NeighbourPartial(g, r, c, 1) + ColumnSum(g, r, c, 0, 3);
  }

  predicate NonNegative(g: Grid)
    requires IsGrid(g)
  {
    forall r, c :: 0 <= r < Size && 0 <= c < Size ==> g[r][c] >= 0
  }

  predicate AtMost(g: Grid, m: int)
    requires IsGrid(g)
  {
    forall r, c :: 0 <= r < Size && 0 <= c < Size ==> g[r][c] <= m
  }

  /** `g` is nowhere larger than `h`. */
  predicate Below(g: Grid, h: Grid)
    requires IsGrid(g) && IsGrid(h)
  {
    forall r, c :: 0 <= r < Size && 0 <= c < Size ==> g[r][c] <= h[r][c]
  }

  lemma StepBounds(g: Grid, m: int)
    requires IsGrid(g) && NonNegative(g) && AtMost(g, m)
    ensures NonNegative(Step(g)) && AtMost(Step(g), 8 * m)
  {
    forall r, c | 0 <= r < Size && 0 <= c < Size
      ensures 0 <= Step(g)[r][c] <= 8 * m
    {
      NeighbourSumExpanded(g, r, c);
    }
  }

  /** Values stay non-negative, and each iteration multiplies the largest possible value by at most 8. */
  lemma {:induction false} DiffuseBounds(g: Grid, k: nat, m: int)
    requires IsGrid(g) && NonNegative(g) && AtMost(g, m)
    ensures NonNegative(Diffuse(g, k)) && AtMost(Diffuse(g, k), m * Pow8(k))
  {
    if k > 0 {
      DiffuseBounds(g, k - 1, m);
      StepBounds(Diffuse(g, k - 1), m * Pow8(k - 1));
      assert 8 * (m * Pow8(k - 1)) == m * Pow8(k);
    }
  }

  /** Every openness value is non-negative and at most 8^k. */
  lemma OpennessBounds(b: BoardValue, k: nat)
    requires WellFormed(b)
    ensures NonNegative(Openness(b, k)) && AtMost(Openness(b, k), Pow8(k))
  {
    DiffuseBounds(InitialGrid(b), k, 1);
  }

  lemma {:induction false} RowTotalBounds(s: seq<int>, m: int)
    requires forall i :: 0 <= i < |s| ==> 0 <= s[i] <= m
    ensures 0 <= RowTotal(s) <= |s| * m
  {
    if s != [] {
      RowTotalBounds(s[..|s| - 1], m);
      assert (|s| - 1) * m + m == |s| * m;
    }
  }

  lemma {:induction false} RowsTotalBounds(g: Grid, n: nat, m: int)
    requires IsGrid(g) && n <= Size && NonNegative(g) && AtMost(g, m)
    ensures 0 <= RowsTotal(g, n) <= n * (Size * m)
  {
    if n > 0 {
      RowsTotalBounds(g, n - 1, m);
      RowTotalBounds(g[n - 1], m);
      assert (n - 1) * (Size * m) + Size * m == n * (Size * m);
    }
  }

  /** The sum of openness values lies between 0 and 64 times 8^k. */
  lemma OpennessTotalBounds(b: BoardValue, k: nat)
    requires WellFormed(b)
    ensures 0 <= Total(Openness(b, k)) <= Size * Size * Pow8(k)
  {
    OpennessBounds(b, k);
    RowsTotalBounds(Openness(b, k), Size, Pow8(k));
  }

  lemma StepMonotone(g: Grid, h: Grid)
    requires IsGrid(g) && IsGrid(h) && Below(g, h)
    ensures Below(Step(g), Step(h))
  {
    forall r, c | 0 <= r < Size && 0 <= c < Size
      ensures Step(g)[r][c] <= Step(h)[r][c]
    {
      NeighbourSumExpanded(g, r, c);
      NeighbourSumExpanded(h, r, c);
    }
  }

  lemma {:induction false} DiffuseMonotone(g: Grid, h: Grid, k: nat)
    requires IsGrid(g) && IsGrid(h) && Below(g, h)
    ensures Below(Diffuse(g, k), Diffuse(h, k))
  {
    if k > 0 {
      DiffuseMonotone(g, h, k - 1);
      StepMonotone(Diffuse(g, k - 1), Diffuse(h, k - 1));
    }
  }

  lemma {:induction false} RowTotalMonotone(s: seq<int>, t: seq<int>)
    requires |s| == |t| && forall j :: 0 <= j < |s| ==> s[j] <= t[j]
    ensures RowTotal(s) <= RowTotal(t)
  {
    if s != [] {
      RowTotalMonotone(s[..|s| - 1], t[..|t| - 1]);
    }
  }

  lemma {:induction false} RowsTotalMonotone(g: Grid, h: Grid, n: nat)
    requires IsGrid(g) && IsGrid(h) && Below(g, h) && n <= Size
    ensures RowsTotal(g, n) <= RowsTotal(h, n)
  {
    if n > 0 {
      RowsTotalMonotone(g, h, n - 1);
      RowTotalMonotone(g[n - 1], h[n - 1]);
    }
  }

  lemma {:induction false} RowMaxMonotone(m: int, s: seq<int>, m': int, t: seq<int>)
    requires m <= m' && |s| == |t| && forall j :: 0 <= j < |s| ==> s[j] <= t[j]
    ensures RowMax(m, s) <= RowMax(m', t)
  {
    if s != [] {
      RowMaxMonotone(m, s[..|s| - 1], m', t[..|t| - 1]);
    }
  }

  lemma {:induction false} RowsMaxMonotone(g: Grid, h: Grid, n: nat)
    requires IsGrid(g) && IsGrid(h) && Below(g, h) && n <= Size
    ensures RowsMax(g, n) <= RowsMax(h, n)
  {
    if n > 0 {
      RowsMaxMonotone(g, h, n - 1);
      RowMaxMonotone(RowsMax(g, n - 1), g[n - 1], RowsMax(h, n - 1), h[n - 1]);
    }
  }

  /**
   * Freeing cells never lowers the openness: when every free cell of `a` is free in `b`, each
   * value, the total and the maximum for `a` are at most those for `b`.
   */
  lemma OpennessMonotone(a: BoardValue, b: BoardValue, k: nat)
    requires WellFormed(a) && WellFormed(b)
    requires forall r, c :: 0 <= r < Size && 0 <= c < Size && !a.occupied[r][c] ==> !b.occupied[r][c]
    ensures Below(Openness(a, k), Openness(b, k))
    ensures Total(Openness(a, k)) <= Total(Openness(b, k))
    ensures GridMax(Openness(a, k)) <= GridMax(Openness(b, k))
  {
    DiffuseMonotone(InitialGrid(a), InitialGrid(b), k);
    RowsTotalMonotone(Openness(a, k), Openness(b, k), Size);
    RowsMaxMonotone(Openness(a, k), Openness(b, k), Size);
  }

  /** A running maximum is at least its start and every entry, and is the start or some entry. */
  lemma {:induction false} RowMaxIs(m: int, s: seq<int>)
    ensures RowMax(m, s) >= m
    ensures forall j :: 0 <= j < |s| ==> RowMax(m, s) >= s[j]
    ensures RowMax(m, s) == m || exists j :: 0 <= j < |s| && RowMax(m, s) == s[j]
  {
    if s != [] {
      var n := |s|;
      RowMaxIs(m, s[..n - 1]);
      assert forall j :: 0 <= j < n - 1 ==> s[..n - 1][j] == s[j];
    }
  }

  lemma {:induction false} RowsMaxIs(g: Grid, n: nat)
    requires IsGrid(g) && n <= Size
    ensures RowsMax(g, n) >= 0
    ensures forall r, c :: 0 <= r < n && 0 <= c < Size ==> RowsMax(g, n) >= g[r][c]
    ensures RowsMax(g, n) == 0 || exists r, c :: 0 <= r < n && 0 <= c < Size && RowsMax(g, n) == g[r][c]
  {
    if n > 0 {
      RowsMaxIs(g, n - 1);
      RowMaxIs(RowsMax(g, n - 1), g[n - 1]);
    }
  }

  /** `getMaxValue` is at least 0 and every cell, and is some cell whenever it is positive. */
  lemma GridMaxIs(g: Grid)
    requires IsGrid(g)
    ensures GridMax(g) >= 0
    ensures forall r, c :: 0 <= r < Size && 0 <= c < Size ==> GridMax(g) >= g[r][c]
    ensures GridMax(g) > 0 ==> exists r, c :: 0 <= r < Size && 0 <= c < Size && GridMax(g) == g[r][c]
  {
    RowsMaxIs(g, Size);
  }

  /** On a fully occupied board every value stays 0, so the maximum is 0. */
  lemma FullBoardIsClosed(b: BoardValue, k: nat)
    requires WellFormed(b)
    requires forall r, c :: 0 <= r < Size && 0 <= c < Size ==> b.occupied[r][c]
    ensures forall r, c :: 0 <= r < Size && 0 <= c < Size ==> Openness(b, k)[r][c] == 0
    ensures GridMax(Openness(b, k)) == 0
  {
    DiffuseBounds(InitialGrid(b), k, 0);
    var g := Openness(b, k);
    GridMaxIs(g);
  }

  /** The value of a cell of the empty board after one iteration: 3 in a corner, 5 on an edge, 8 inside. */
  function EmptyOnceValue(r: int, c: int): int
  {
    var edgeRow := r == 0 || r == Size - 1;
    var edgeCol := c == 0 || c == Size - 1;
    if edgeRow && edgeCol then 3 else if edgeRow || edgeCol then 5 else 8
  }

  lemma EmptyBoardOnce(r: int, c: int)
    requires 0 <= r < Size && 0 <= c < Size
    ensures Openness(EmptyBoard(), 1)[r][c] == EmptyOnceValue(r, c)
  {
    var g := InitialGrid(EmptyBoard());
    assert forall i, j :: 0 <= i < Size && 0 <= j < Size ==> g[i][j] == 1;
    NeighbourSumExpanded(g, r, c);
  }

  const EdgeRow: seq<int> := [3, 5, 5, 5, 5, 5, 5, 3]
  const InnerRow: seq<int> := [5, 8, 8, 8, 8, 8, 8, 5]

  lemma EmptyBoardOnceGrid()
    ensures Openness(EmptyBoard(), 1) == [EdgeRow, InnerRow, InnerRow, InnerRow, InnerRow, InnerRow, InnerRow, EdgeRow]
  {
    var g := Openness(EmptyBoard(), 1);
    var h := [EdgeRow, InnerRow, InnerRow, InnerRow, InnerRow, InnerRow, InnerRow, EdgeRow];
    forall r | 0 <= r < Size
      ensures g[r] == h[r]
    {
      forall c | 0 <= c < Size
        ensures g[r][c] == h[r][c]
      {
        EmptyBoardOnce(r, c);
      }
    }
  }

  /** On the empty board one iteration gives the total 4*3 + 24*5 + 36*8 = 420 and the maximum 8. */
  lemma EmptyBoardOnceTotals()
    ensures Total(Openness(EmptyBoard(), 1)) == 420
    ensures GridMax(Openness(EmptyBoard(), 1)) == 8
  {
    EmptyBoardOnceGrid();
    var g := Openness(EmptyBoard(), 1);
    RowTotalEight(EdgeRow);
    RowTotalEight(InnerRow);
    RowMaxEight(0, EdgeRow);
    RowMaxEight(5, InnerRow);
    RowMaxEight(8, InnerRow);
    RowMaxEight(8, EdgeRow);
    assert RowsTotal(g, 1) == 36;
    assert RowsTotal(g, 2) == 94;
    assert RowsTotal(g, 3) == 152;
    assert RowsTotal(g, 4) == 210;
    assert RowsTotal(g, 5) == 268;
    assert RowsTotal(g, 6) == 326;
    assert RowsTotal(g, 7) == 384;
    assert RowsMax(g, 1) == 5;
    assert RowsMax(g, 2) == 8;
    assert RowsMax(g, 3) == 8;
    assert RowsMax(g, 4) == 8;
    assert RowsMax(g, 5) == 8;
    assert RowsMax(g, 6) == 8;
    assert RowsMax(g, 7) == 8;
  }

  lemma RowTotalEight(s: seq<int>)
    requires |s| == 8
    ensures RowTotal(s) == s[0] + s[1] + s[2] + s[3] + s[4] + s[5] + s[6] + s[7]
  {
    forall k | 0 <= k < 8 ensures RowTotal(s[..k + 1]) == RowTotal(s[..k]) + s[k] {
      assert s[..k + 1][..k] == s[..k];
    }
    assert s[..8] == s;
  }

  lemma RowMaxEight(m: int, s: seq<int>)
    requires |s| == 8
    ensures RowMax(m, s) == Max(Max(Max(Max(Max(Max(Max(Max(m, s[0]), s[1]), s[2]), s[3]), s[4]), s[5]), s[6]), s[7])
  {
    forall k | 0 <= k < 8 ensures RowMax(m, s[..k + 1]) == Max(RowMax(m, s[..k]), s[k]) {
      assert s[..k + 1][..k] == s[..k];
    }
    assert s[..8] == s;
  }
}
