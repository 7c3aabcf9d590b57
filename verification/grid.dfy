/** Row-major index arithmetic shared by the QAM lattice, the receiver's
    `peri_symbols x peri_carriers` frame buffer and the covariance snapshots:
    cell `(x, y)` of a grid with rows of width `w` sits at `x * w + y`. */
module Grid {

  function Index2(w: nat, x: nat, y: nat): nat
    decreases x
  {
    if x == 0 then y else Index2(w, x - 1, y) + w
  }

  /** The index is `x * w + y`. `Index2` is defined by counting rows so that the
      product only enters a proof where this lemma is called. */
  lemma {:induction false} IndexIsProduct(w: nat, x: nat, y: nat)
    ensures Index2(w, x, y) == x * w + y
  {
    if x > 0 {
      IndexIsProduct(w, x - 1, y);
    }
  }

  /** The number of cells in `rows` rows of width `w`: the index just past the last
      row. */
  function Cells(w: nat, rows: nat): nat {
    Index2(w, rows, 0)
  }

  lemma CellsIsProduct(w: nat, rows: nat)
    ensures Cells(w, rows) == rows * w
  {
    IndexIsProduct(w, rows, 0);
  }

  /** In a grid of width 0 every index is the column. */
  lemma {:induction false} IndexZeroWidth(x: nat, y: nat)
    ensures Index2(0, x, y) == y
  {
    if x > 0 {
      IndexZeroWidth(x - 1, y);
    }
  }

  /** Cell `(x, y)` of a grid of `rows` rows lies inside it, and so does the rest of
      its row. */
  lemma IndexInGrid(w: nat, rows: nat, x: nat, y: nat)
    requires x < rows && y < w
    ensures Index2(w, x, y) < Cells(w, rows)
    ensures Index2(w, x, y) + (w - y) <= Cells(w, rows)
  {
    IndexOrder(w, x, y, rows);
  }

  /** Every cell of a grid of `rows` rows lies inside it. */
  lemma GridCells(w: nat, rows: nat)
    ensures forall x: nat, y: nat {:trigger Index2(w, x, y)} :: x < rows && y < w ==> Index2(w, x, y) < Cells(w, rows)
  {
    forall x: nat, y: nat | x < rows && y < w
      ensures Index2(w, x, y) < Cells(w, rows)
    {
      IndexInGrid(w, rows, x, y);
    }
  }

  /** Row `x` of a grid of `rows` rows ends inside it. */
  lemma RowInGrid(w: nat, rows: nat, x: nat)
    requires x < rows
    ensures Index2(w, x, 0) + w <= Cells(w, rows)
  {
    if w > 0 {
      IndexOrder(w, x, 0, rows);
    } else {
      IndexZeroWidth(x, 0);
      IndexZeroWidth(rows, 0);
    }
  }

  /** The rows one after the other, as a frame is built by appending symbols. */
  function Concat<T>(rows: seq<seq<T>>): seq<T>
    decreases |rows|
  {
    if |rows| == 0 then [] else Concat(rows[..|rows| - 1]) + rows[|rows| - 1]
  }

  /** Appending a row to the rows appends it to their concatenation. */
  lemma ConcatAppend<T>(rows: seq<seq<T>>, row: seq<T>)
    ensures Concat(rows + [row]) == Concat(rows) + row
  {
    assert (rows + [row])[..|rows|] == rows;
  }

  /** Concatenating rows of width `w` lays row `x` out at `Index2(w, x, 0)`. */
  lemma {:induction false} ConcatCells<T>(rows: seq<seq<T>>, w: nat)
    requires forall x :: 0 <= x < |rows| ==> |rows[x]| == w
    ensures |Concat(rows)| == Cells(w, |rows|)
    ensures forall x: nat, y: nat {:trigger Index2(w, x, y)} :: x < |rows| && y < w ==>
      Index2(w, x, y) < |Concat(rows)| && Concat(rows)[Index2(w, x, y)] == rows[x][y]
    decreases |rows|
  {
    if |rows| > 0 {
      var k := |rows| - 1;
      var front := rows[..k];
      ConcatCells(front, w);
      forall x: nat, y: nat {:trigger Index2(w, x, y)} | x < |rows| && y < w
        ensures Index2(w, x, y) < |Concat(rows)| && Concat(rows)[Index2(w, x, y)] == rows[x][y]
      {
        IndexInGrid(w, |rows|, x, y);
        if x == k {
          IndexColumn(w, k, y);
        } else {
          IndexInGrid(w, k, x, y);
        }
      }
    }
  }

  /** Copying a row into a grid: row `s` replaced, every other row kept (see
      `WriteRowCell`). */
  function WriteRow<T>(frame: seq<T>, w: nat, rows: nat, s: nat, row: seq<T>): (r: seq<T>)
    requires |frame| == Cells(w, rows) && s < rows && |row| == w
    ensures |r| == |frame|
  {
    RowInGrid(w, rows, s);
    frame[..Index2(w, s, 0)] + row + frame[Index2(w, s, 0) + w..]
  }

  lemma WriteRowCell<T>(frame: seq<T>, w: nat, rows: nat, s: nat, row: seq<T>, x: nat, y: nat)
    requires |frame| == Cells(w, rows) && s < rows && |row| == w
    requires x < rows && y < w
    ensures Index2(w, x, y) < |frame|
    ensures WriteRow(frame, w, rows, s, row)[Index2(w, x, y)] == if x == s then row[y] else frame[Index2(w, x, y)]
  {
    RowInGrid(w, rows, s);
    IndexInGrid(w, rows, x, y);
    IndexColumn(w, x, y);
    if x < s {
      IndexOrder(w, x, y, s);
    } else if x > s {
      IndexOrder(w, s, 0, x);
    }
  }

  /** Rows `s0 .. s0 + |block| - 1` replaced by the rows of `block`, written one after
      the other. */
  function WriteRows<T>(frame: seq<T>, w: nat, rows: nat, s0: nat, block: seq<seq<T>>): (r: seq<T>)
    requires |frame| == Cells(w, rows) && s0 + |block| <= rows
    requires forall k :: 0 <= k < |block| ==> |block[k]| == w
    ensures |r| == |frame|
    decreases |block|
  {
    if |block| == 0 then frame
    else
      var k := |block| - 1;
      WriteRow(WriteRows(frame, w, rows, s0, block[..k]), w, rows, s0 + k, block[k])
  }

  /** Writing one more row, at row `s` right after a block, extends the block. */
  lemma WriteRowsAppend<T>(frame: seq<T>, w: nat, rows: nat, s0: nat, block: seq<seq<T>>,
                           written: seq<T>, s: nat, row: seq<T>)
    requires |frame| == Cells(w, rows) && s0 + |block| < rows
    requires forall k :: 0 <= k < |block| ==> |block[k]| == w
    requires |row| == w
    requires s == s0 + |block| && written == WriteRows(frame, w, rows, s0, block)
    ensures WriteRows(frame, w, rows, s0, block + [row]) == WriteRow(written, w, rows, s, row)
  {
    assert (block + [row])[..|block|] == block;
  }

  /** After a block write, row `x` is row `x - s0` of the block when the block covers
      it, and the old row otherwise. */
  lemma {:induction false} WriteRowsCells<T>(frame: seq<T>, w: nat, rows: nat, s0: nat, block: seq<seq<T>>, x: nat, y: nat)
    requires |frame| == Cells(w, rows) && s0 + |block| <= rows
    requires forall k :: 0 <= k < |block| ==> |block[k]| == w
    requires x < rows && y < w
    ensures Index2(w, x, y) < |frame|
    ensures s0 <= x < s0 + |block| ==> WriteRows(frame, w, rows, s0, block)[Index2(w, x, y)] == block[x - s0][y]
    ensures !(s0 <= x < s0 + |block|) ==> WriteRows(frame, w, rows, s0, block)[Index2(w, x, y)] == frame[Index2(w, x, y)]
    decreases |block|
  {
    IndexInGrid(w, rows, x, y);
    if |block| > 0 {
      var k := |block| - 1;
      WriteRowsCells(frame, w, rows, s0, block[..k], x, y);
      WriteRowCell(WriteRows(frame, w, rows, s0, block[..k]), w, rows, s0 + k, block[k], x, y);
    }
  }

  /** The first `n` cells of column `k`, top to bottom. */
  function Column<T>(frame: seq<T>, w: nat, rows: nat, k: nat, n: nat): (r: seq<T>)
    requires |frame| == Cells(w, rows) && k < w && n <= rows
    ensures |r| == n
    decreases n
  {
    if n == 0 then []
    else
      IndexInGrid(w, rows, n - 1, k);
      Column(frame, w, rows, k, n - 1) + [frame[Index2(w, n - 1, k)]]
  }

  lemma {:induction false} ColumnAt<T>(frame: seq<T>, w: nat, rows: nat, k: nat, n: nat, x: nat)
    requires |frame| == Cells(w, rows) && k < w && x < n <= rows
    ensures Index2(w, x, k) < |frame|
    ensures Column(frame, w, rows, k, n)[x] == frame[Index2(w, x, k)]
    decreases n
  {
    IndexInGrid(w, rows, x, k);
    if x < n - 1 {
      ColumnAt(frame, w, rows, k, n - 1, x);
    }
  }

  /** A column depends only on the cells of that column. */
  lemma {:induction false} ColumnOfSameCells<T>(f: seq<T>, g: seq<T>, w: nat, rows: nat, k: nat, n: nat)
    requires |f| == |g| == Cells(w, rows) && k < w && n <= rows
    requires forall x :: 0 <= x < n ==> Index2(w, x, k) < |f| && f[Index2(w, x, k)] == g[Index2(w, x, k)]
    ensures Column(f, w, rows, k, n) == Column(g, w, rows, k, n)
    decreases n
  {
    if n > 0 {
      ColumnOfSameCells(f, g, w, rows, k, n - 1);
    }
  }

  /** Entry `y` of every row of `block`. */
  function ColumnOfRows<T>(block: seq<seq<T>>, y: nat): (r: seq<T>)
    requires forall k :: 0 <= k < |block| ==> y < |block[k]|
    ensures |r| == |block|
  {
    seq(|block|, k requires 0 <= k < |block| => block[k][y])
  }

  /** After rows `0 .. |block| - 1` are written, the top of column `y` is entry `y` of
      each written row, whatever the grid held before. */
  lemma ColumnOfWrittenRows<T>(frame: seq<T>, w: nat, rows: nat, block: seq<seq<T>>, y: nat)
    requires |frame| == Cells(w, rows) && |block| <= rows && y < w
    requires forall k :: 0 <= k < |block| ==> |block[k]| == w
    ensures Column(WriteRows(frame, w, rows, 0, block), w, rows, y, |block|) == ColumnOfRows(block, y)
  {
    var f := WriteRows(frame, w, rows, 0, block);
    forall x | 0 <= x < |block|
      ensures Column(f, w, rows, y, |block|)[x] == ColumnOfRows(block, y)[x]
    {
      ColumnAt(f, w, rows, y, |block|, x);
      WriteRowsCells(frame, w, rows, 0, block, x, y);
    }
  }

  /** Column `k` of rows `0 .. n - 1` overwritten by `col`, one cell at a time from the
      top (see `WriteColumnCell`). */
  function WriteColumn<T>(frame: seq<T>, w: nat, rows: nat, k: nat, col: seq<T>, n: nat): (r: seq<T>)
    requires |frame| == Cells(w, rows) && k < w && n <= rows && n <= |col|
    ensures |r| == |frame|
    decreases n
  {
    if n == 0 then frame
    else
      IndexInGrid(w, rows, n - 1, k);
      WriteColumn(frame, w, rows, k, col, n - 1)[Index2(w, n - 1, k) := col[n - 1]]
  }

  /** After a column write, cell `(x, k)` with `x < n` holds `col[x]` and every other
      cell is unchanged. */
  lemma {:induction false} WriteColumnCell<T>(frame: seq<T>, w: nat, rows: nat, k: nat, col: seq<T>, n: nat, x: nat, y: nat)
    requires |frame| == Cells(w, rows) && k < w && n <= rows && n <= |col|
    requires x < rows && y < w
    ensures Index2(w, x, y) < |frame|
    ensures WriteColumn(frame, w, rows, k, col, n)[Index2(w, x, y)] == if y == k && x < n then col[x] else frame[Index2(w, x, y)]
    decreases n
  {
    IndexInGrid(w, rows, x, y);
    if n > 0 {
      WriteColumnCell(frame, w, rows, k, col, n - 1, x, y);
      IndexInGrid(w, rows, n - 1, k);
      if Index2(w, x, y) == Index2(w, n - 1, k) {
        IndexUnique(w, x, y, n - 1, k);
      } else if y == k && x == n - 1 {
        assert false;
      }
    }
  }

  /** Row and column of index `i`: `i / w` and `i % w`. */
  function RowOf(w: nat, i: nat): nat
    requires w > 0
  {
    i / w
  }

  function ColOf(w: nat, i: nat): nat
    requires w > 0
  {
    i % w
  }

  lemma MulMonotone(a: nat, b: nat, c: nat)
    requires a >= b
    ensures a * c >= b * c
  {
  }

  /** A cell of row `x < rows` lies inside a grid of `rows` rows. */
  lemma IndexBound(w: nat, rows: nat, x: nat, y: nat)
    requires x < rows && y < w
    ensures Index2(w, x, y) < rows * w
    ensures Index2(w, x, y) + (w - y) <= rows * w
  {
    IndexIsProduct(w, x, y);
    MulMonotone(rows, x + 1, w);
  }

  /** The next row starts one width further on. */
  lemma IndexStep(w: nat, x: nat)
    ensures Index2(w, x + 1, 0) == Index2(w, x, 0) + w
  {
  }

  /** Column `y` of row `x` is `y` entries past the row's start. */
  lemma {:induction false} IndexColumn(w: nat, x: nat, y: nat)
    ensures Index2(w, x, y) == Index2(w, x, 0) + y
  {
    if x > 0 {
      IndexColumn(w, x - 1, y);
    }
  }

  /** Rows are laid out in order: every cell of row `x1` comes before row `x2 > x1`
      starts. */
  lemma {:induction false} IndexOrder(w: nat, x1: nat, y1: nat, x2: nat)
    requires x1 < x2 && y1 < w
    ensures Index2(w, x1, y1) + (w - y1) <= Index2(w, x2, 0)
  {
    if x1 < x2 - 1 {
      IndexOrder(w, x1, y1, x2 - 1);
    } else {
      IndexColumn(w, x1, y1);
    }
  }

  /** Distinct cells have distinct indices. */
  lemma IndexUnique(w: nat, x1: nat, y1: nat, x2: nat, y2: nat)
    requires y1 < w && y2 < w
    requires Index2(w, x1, y1) == Index2(w, x2, y2)
    ensures x1 == x2 && y1 == y2
  {
    IndexColumn(w, x1, y1);
    IndexColumn(w, x2, y2);
    if x1 < x2 {
      IndexOrder(w, x1, y1, x2);
    } else if x2 < x1 {
      IndexOrder(w, x2, y2, x1);
    }
  }

  lemma DivBound(i: nat, w: nat)
    requires i < w * w
    ensures w > 0
    ensures i / w < w
  {
    if i / w >= w {
      MulMonotone(i / w, w, w);
    }
  }

  lemma MulAtLeast(k: int, m: int)
    requires k >= 1 && m >= 0
    ensures k * m >= m
  {
    assert k * m == (k - 1) * m + m;
    assert (k - 1) * m >= 0;
  }

  /** Euclidean division is unique: `d * m + r` with `0 <= r < m` leaves remainder `r`. */
  lemma ModUnique(a: int, m: int, d: int, r: int)
    requires m > 0 && 0 <= r < m && a == d * m + r
    ensures a % m == r
    ensures a / m == d
  {
    var q, s := a / m, a % m;
    assert a == q * m + s;
    assert (q - d) * m == r - s;
    if q > d {
      MulAtLeast(q - d, m);
    } else if q < d {
      MulAtLeast(d - q, m);
    }
  }

  /** `((a mod m) + b) mod m == (a + b) mod m`. */
  lemma ModAddShift(a: nat, b: nat, m: nat)
    requires m > 0
    ensures ((a % m) + b) % m == (a + b) % m
  {
    var q, d := a / m, (a % m + b) / m;
    var r := (a % m + b) % m;
    assert a == q * m + a % m;
    assert a % m + b == d * m + r;
    ModUnique(a + b, m, q + d, r);
  }

  /** An index that moved at most one period reduces to itself, or to 0 at the end. */
  lemma ModWithinOnePeriod(a: nat, m: nat)
    requires 0 < m && a <= m
    ensures a % m == if a == m then 0 else a
  {
    if a == m {
      ModUnique(a, m, 1, 0);
    } else {
      ModUnique(a, m, 0, a);
    }
  }

  /** Row and column recover the cell an index was formed from. */
  lemma RowColOfIndex(w: nat, x: nat, y: nat)
    requires y < w
    ensures RowOf(w, Index2(w, x, y)) == x && ColOf(w, Index2(w, x, y)) == y
  {
    IndexIsProduct(w, x, y);
    ModUnique(Index2(w, x, y), w, x, y);
  }
}
