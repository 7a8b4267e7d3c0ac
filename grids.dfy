/** The row-major grids of the `grid` crate: `Grid::from_vec` cuts a run of bytes into rows
    of a given width, and `Grid::get` finds a cell by its row and column. */
module Grids {
  import opened Text

  /** `Grid::get`: the cell at a row and a column, none outside the grid (a negative index
      included). */
  function Get(g: seq<string>, row: int, col: int): (r: Option<char>)
    ensures r.Some? <==> 0 <= row < |g| && 0 <= col < |g[row]|
    ensures r.Some? ==> r.value == g[row][col]
  {
    if 0 <= row < |g| && 0 <= col < |g[row]| then Some(g[row][col]) else None
  }

  /** The index of the first cell of row `row` when every row has `cols` cells. */
  function Offset(row: nat, cols: nat): nat
  {
    if row == 0 then 0 else Offset(row - 1, cols) + cols
  }

  lemma {:induction false} OffsetIsProduct(row: nat, cols: nat)
    ensures Offset(row, cols) == row * cols
  {
    if row > 0 {
      OffsetIsProduct(row - 1, cols);
      assert (row - 1) * cols + cols == row * cols;
    }
  }

  /** `rows` rows of `cols` cells cut from `flat`, as `Grid::from_vec` lays them out. */
  function Reshape(flat: string, cols: nat, rows: nat): (g: seq<string>)
    requires |flat| == Offset(rows, cols)
    ensures |g| == rows && forall r :: 0 <= r < rows ==> |g[r]| == cols
  {
    if rows == 0 then [] else [flat[..cols]] + Reshape(flat[cols..], cols, rows - 1)
  }

  /** The cell at a row and a column of the layout is the byte at the row's offset plus
      the column. */
  lemma {:induction false} ReshapeAt(flat: string, cols: nat, rows: nat, row: nat, col: nat)
    requires |flat| == Offset(rows, cols) && row < rows && col < cols
    ensures Offset(row, cols) + col < |flat|
    ensures Reshape(flat, cols, rows)[row][col] == flat[Offset(row, cols) + col]
  {
    var g := Reshape(flat, cols, rows);
    if row == 0 {
      assert g[0] == flat[..cols];
    } else {
      var rest, k := flat[cols..], Offset(row - 1, cols) + col;
      ReshapeAt(rest, cols, rows - 1, row - 1, col);
      assert g[row] == Reshape(rest, cols, rows - 1)[row - 1];
      assert rest[k] == flat[cols + k];
    }
  }

  /** The byte at index `i` of `rows` full rows is the cell at row `i / cols` and column
      `i % cols` of the layout. */
  lemma CellOfIndex(flat: string, cols: nat, rows: nat, i: nat)
    requires cols > 0 && rows * cols == |flat| && i < |flat|
    ensures |flat| == Offset(rows, cols) && 0 <= i / cols < rows && 0 <= i % cols < cols
    ensures Reshape(flat, cols, rows)[i / cols][i % cols] == flat[i]
  {
    OffsetIsProduct(rows, cols);
    RowOfIndex(i, rows, cols);
    OffsetIsProduct(i / cols, cols);
    ReshapeAt(flat, cols, rows, i / cols, i % cols);
  }

  /** Division by the width recovers a byte's row and column. */
  lemma RowOfIndex(i: nat, rows: nat, cols: nat)
    requires cols > 0 && i < rows * cols
    ensures i / cols < rows && i % cols < cols && i == (i / cols) * cols + i % cols
  {
    var r := i / cols;
    assert r * cols <= i;
  }
}
