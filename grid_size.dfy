/** The two rules that turn a number of items into a grid of rows and columns.
    The source computes them with floating-point `math.sqrt`; here the square
    roots are characterised exactly over the integers:
      floor(sqrt(n))     is the largest r with r*r <= n,
      ceil(sqrt(n))      is the smallest c with c*c >= n,
      ceil(1.5*sqrt(n))  is the smallest c with 4*(c*c) >= 9*n. */
module GridSize {

  datatype Grid = Grid(rows: nat, columns: nat)

  lemma SquareMonotonic(a: nat, b: nat)
    requires a <= b
    ensures a * a <= b * b
  {
    assert a * a <= a * b by { MulLeft(a, a, b); }
    assert a * b <= b * b by { MulLeft(b, a, b); }
  }

  lemma MulLeft(k: nat, a: nat, b: nat)
    requires a <= b
    ensures k * a <= k * b
  {
  }

  /** The number of cells in the first `row` rows of a grid `columns` wide,
      which is also the row-major index of the first cell of `row`. It is
      row * columns (RowStartIsProduct), counted up row by row so that
      unfolding it leaves the solver only linear arithmetic. */
  function RowStart(row: nat, columns: nat): nat
  {
    if row == 0 then 0 else RowStart(row - 1, columns) + columns
  }

  lemma {:induction false} RowStartIsProduct(row: nat, columns: nat)
    ensures RowStart(row, columns) == row * columns
    decreases row
  {
    if row > 0 {
      RowStartIsProduct(row - 1, columns);
      assert (row - 1) * columns + columns == row * columns;
    }
  }

  // ---------------------------------------------------------------------------
  // Integer square roots
  // ---------------------------------------------------------------------------

  /** floor(sqrt(n)), counted up from floor(sqrt(n - 1)). */
  function FloorSqrt(n: nat): nat
    decreases n
  {
    if n == 0 then 0
    else
      var r := FloorSqrt(n - 1);
      if RowStart(r + 1, r + 1) <= n then r + 1 else r
  }

  /** FloorSqrt(n) is the largest r with r*r <= n. */
  lemma {:induction false} FloorSqrtBounds(n: nat)
    ensures FloorSqrt(n) * FloorSqrt(n) <= n < (FloorSqrt(n) + 1) * (FloorSqrt(n) + 1)
    decreases n
  {
    if n > 0 {
      FloorSqrtBounds(n - 1);
      var r := FloorSqrt(n - 1);
      RowStartIsProduct(r + 1, r + 1);
      if (r + 1) * (r + 1) > n {
        assert FloorSqrt(n) == r;
      } else {
        assert (r + 1) * (r + 1) == n;
        assert (r + 2) * (r + 2) == n + 2 * r + 3;
      }
    }
  }

  /** Only one number satisfies the floor-square-root bounds. */
  lemma FloorSqrtUnique(n: nat, r: nat)
    requires r * r <= n < (r + 1) * (r + 1)
    ensures FloorSqrt(n) == r
  {
    FloorSqrtBounds(n);
    var f := FloorSqrt(n);
    if f < r {
      SquareMonotonic(f + 1, r);
    } else if f > r {
      SquareMonotonic(r + 1, f);
    }
  }

  /** ceil(sqrt(n)). */
  function CeilSqrt(n: nat): nat
  {
    var r := FloorSqrt(n);
    if RowStart(r, r) == n then r else r + 1
  }

  /** CeilSqrt(n) is the smallest c with c*c >= n. */
  lemma CeilSqrtBounds(n: nat)
    ensures CeilSqrt(n) * CeilSqrt(n) >= n
    ensures CeilSqrt(n) == 0 || (CeilSqrt(n) - 1) * (CeilSqrt(n) - 1) < n
  {
    FloorSqrtBounds(n);
    RowStartIsProduct(FloorSqrt(n), FloorSqrt(n));
  }

  /** ceil(1.5 * sqrt(n)) = ceil(sqrt(9n) / 2). */
  function CeilThreeHalvesSqrt(n: nat): nat
  {
    (CeilSqrt(9 * n) + 1) / 2
  }

  /** CeilThreeHalvesSqrt(n) is the smallest c with 4*(c*c) >= 9*n. */
  lemma CeilThreeHalvesSqrtBounds(n: nat)
    ensures 4 * (CeilThreeHalvesSqrt(n) * CeilThreeHalvesSqrt(n)) >= 9 * n
    ensures CeilThreeHalvesSqrt(n) == 0
      || 4 * ((CeilThreeHalvesSqrt(n) - 1) * (CeilThreeHalvesSqrt(n) - 1)) < 9 * n
  {
    CeilSqrtBounds(9 * n);
    HalfCeilFacts(n, CeilSqrt(9 * n), CeilThreeHalvesSqrt(n));
  }

  lemma HalfCeilFacts(n: nat, s: nat, c: nat)
    requires s * s >= 9 * n && (s == 0 || (s - 1) * (s - 1) < 9 * n)
    requires c == (s + 1) / 2
    ensures 4 * (c * c) >= 9 * n
    ensures c == 0 || 4 * ((c - 1) * (c - 1)) < 9 * n
  {
    SquareMonotonic(s, 2 * c);
    DoubleSquare(c);
    if c > 0 {
      SquareMonotonic(2 * (c - 1), s - 1);
      DoubleSquare(c - 1);
    }
  }

  lemma DoubleSquare(c: nat)
    ensures (2 * c) * (2 * c) == 4 * (c * c)
  {
  }

  // ---------------------------------------------------------------------------
  // MosaicViewerLogic.makeLayout: rows = floor(sqrt n), columns = ceil(sqrt n),
  // one more row when the cells do not suffice
  // ---------------------------------------------------------------------------

  function MosaicGrid(n: nat): (g: Grid)
    ensures g.rows <= g.columns <= g.rows + 1
    ensures n == 0 <==> g == Grid(0, 0)
  {
    var rows := FloorSqrt(n);
    var columns := CeilSqrt(n);
    MosaicGridFacts(n, rows, columns);
    if n > RowStart(rows, columns) then Grid(rows + 1, columns) else Grid(rows, columns)
  }

  /** The mosaic has a cell for every item and no row left wholly empty:
      fewer than one row's worth of cells to spare. */
  lemma MosaicGridCovers(n: nat)
    ensures var g := MosaicGrid(n);
      n <= g.rows * g.columns && (n > 0 ==> g.rows * g.columns < n + g.columns)
  {
    var rows, columns := FloorSqrt(n), CeilSqrt(n);
    MosaicGridFacts(n, rows, columns);
    RowStartIsProduct(rows, columns);
    var g := MosaicGrid(n);
    if n > 0 {
      assert (g.rows - 1) * g.columns == g.rows * g.columns - g.columns;
    }
  }

  lemma MosaicGridFacts(n: nat, rows: nat, columns: nat)
    requires rows == FloorSqrt(n) && columns == CeilSqrt(n)
    ensures columns == rows || columns == rows + 1
    ensures rows * rows == n <==> columns == rows
    ensures n > rows * columns ==> columns == rows + 1 && (rows + 1) * columns >= n && rows * columns < n
    ensures n <= rows * columns && n > 0 ==> (rows - 1) * columns < n
  {
    FloorSqrtBounds(n);
    RowStartIsProduct(rows, rows);
    if columns == rows + 1 && n <= rows * columns && n > 0 {
      assert (rows - 1) * columns == rows * rows - 1;
    }
  }

  /** The examples given with makeLayout. */
  lemma MosaicGridExamples()
    ensures MosaicGrid(3) == Grid(2, 2)
    ensures MosaicGrid(5) == Grid(2, 3)
    ensures MosaicGrid(11) == Grid(3, 4)
  {
    FloorSqrtUnique(3, 1);
    FloorSqrtUnique(5, 2);
    FloorSqrtUnique(11, 3);
  }

  // ---------------------------------------------------------------------------
  // CompareVolumesLogic.viewerPerVolume: columns = ceil(1.5 sqrt n) capped at n,
  // rows = ceil(n / columns)
  // ---------------------------------------------------------------------------

  function WideGrid(n: nat): (g: Grid)
    requires n >= 1
    ensures 1 <= g.columns <= n
    ensures g.columns == n || g.columns == CeilThreeHalvesSqrt(n)
    ensures 1 <= g.rows <= g.columns
    ensures g.columns == if CeilThreeHalvesSqrt(n) > n then n else CeilThreeHalvesSqrt(n)
    ensures g.rows == CeilDiv(n, g.columns)
  {
    var c := CeilThreeHalvesSqrt(n);
    var columns := if c > n then n else c;
    CeilThreeHalvesSqrtBounds(n);
    WideGridFacts(n, c, columns);
    Grid(CeilDiv(n, columns), columns)
  }

  /** The grid has a cell for every item and no row left wholly empty. */
  lemma WideGridCovers(n: nat)
    requires n >= 1
    ensures var g := WideGrid(n);
      g.rows * g.columns >= n > (g.rows - 1) * g.columns
  {
    var c := CeilThreeHalvesSqrt(n);
    CeilDivFacts(n, if c > n then n else c);
  }

  lemma WideGridFacts(n: nat, c: nat, columns: nat)
    requires n >= 1 && 4 * (c * c) >= 9 * n
    requires columns == (if c > n then n else c)
    ensures columns >= 1 && 1 <= CeilDiv(n, columns) <= columns
  {
    if columns < n {
      assert columns * columns > n;
      CeilDivBelowSquare(n, columns);
    }
  }

  /** ceil(n / d), the rounded-up true division of the source, counted by
      repeated subtraction. */
  function CeilDiv(n: nat, d: nat): nat
    requires d >= 1
    decreases n
  {
    if n == 0 then 0 else if n <= d then 1 else 1 + CeilDiv(n - d, d)
  }

  /** ceil(n / d) rows of d cover n with no empty row. */
  lemma {:induction false} CeilDivFacts(n: nat, d: nat)
    requires d >= 1
    ensures CeilDiv(n, d) * d >= n > (CeilDiv(n, d) - 1) * d
    decreases n
  {
    var q := CeilDiv(n, d);
    if n > d {
      CeilDivFacts(n - d, d);
      var p := CeilDiv(n - d, d);
      assert q * d == p * d + d;
      assert (q - 1) * d == (p - 1) * d + d;
    }
  }

  /** When n < d * d, ceil(n / d) <= d. */
  lemma CeilDivBelowSquare(n: nat, d: nat)
    requires d >= 1 && n < d * d
    ensures CeilDiv(n, d) <= d
  {
    CeilDivFacts(n, d);
  }

  /** The grids the module's own tests expect: two volumes in one row of two, */
  lemma WideGridTwo()
    ensures WideGrid(2) == Grid(1, 2)
  {
    FloorSqrtUnique(18, 4);
  }

  /** three in one row of three, */
  lemma WideGridThree()
    ensures WideGrid(3) == Grid(1, 3)
  {
    FloorSqrtUnique(27, 5);
  }

  /** and four in two rows of three. */
  lemma WideGridFour()
    ensures WideGrid(4) == Grid(2, 3)
  {
    FloorSqrtUnique(36, 6);
    assert CeilSqrt(36) == 6;
    assert CeilThreeHalvesSqrt(4) == 3;
    assert CeilDiv(4, 3) == 2;
  }

  /** Five volumes give two rows of four, not the three-by-two the source's
      comment describes. */
  lemma WideGridFive()
    ensures WideGrid(5) == Grid(2, 4)
  {
    FloorSqrtUnique(45, 6);
    assert CeilSqrt(45) == 7;
    assert CeilThreeHalvesSqrt(5) == 4;
    assert CeilDiv(5, 4) == 2;
  }
}
