/** Geometry of the d×d surface-code lattice and the 0/1 parity grids laid
    over it. A cell (i, j) is a data qubit when i + j is even and a syndrome
    (measurement) qubit otherwise; a measurement cell in an odd column reads
    the X grid and one in an even column reads the Z grid. */
module Lattice {

  /** A cell address. `util.rs` stores both parts as `usize`, so they are
      never negative. */
  datatype Coord = Coord(row: nat, col: nat)

  /** A parity grid, indexed `g[row][col]`; `true` is the Rust scorer's 1.
      `util.rs` only ever starts a grid at 0 and XORs 1 into it, so its cells
      are always 0 or 1 and a boolean holds exactly that. */
  type Grid = seq<seq<bool>>

  predicate IsDataCell(i: nat, j: nat) {
    (i + j) % 2 == 0
  }

  predicate IsMeasurementCell(i: nat, j: nat) {
    (i + j) % 2 == 1
  }

  /** A measurement cell in an odd column checks the X grid; in an even
      column it checks the Z grid. */
  predicate ChecksX(j: nat) {
    j % 2 == 1
  }

  predicate InBounds(p: Coord, d: nat) {
    p.row < d && p.col < d
  }

  predicate IsGrid(g: Grid, d: nat) {
    |g| == d && forall i :: 0 <= i < d ==> |g[i]| == d
  }

  predicate IsZero(g: Grid) {
    forall i, j :: 0 <= i < |g| && 0 <= j < |g[i]| ==> !g[i][j]
  }

  /** The freshly allocated `vec![0; d]` rows of `util.rs`. */
  function ZeroGrid(d: nat): (g: Grid)
    ensures IsGrid(g, d) && IsZero(g)
  {
    seq(d, _ => seq(d, _ => false))
  }

  /** `g[p.row][p.col] ^= 1`: flips exactly one cell and leaves every other
      cell as it was. */
  function Toggle(g: Grid, p: Coord): (r: Grid)
    requires p.row < |g| && p.col < |g[p.row]|
    ensures |r| == |g|
    ensures forall i :: 0 <= i < |g| ==> |r[i]| == |g[i]|
    ensures r[p.row][p.col] == !g[p.row][p.col]
    ensures forall i, j :: 0 <= i < |g| && 0 <= j < |g[i]| && (i != p.row || j != p.col) ==> r[i][j] == g[i][j]
  {
    g[p.row := g[p.row][p.col := !g[p.row][p.col]]]
  }

  /** Two grids of the same shape that agree on every cell are equal. */
  lemma GridExt(g: Grid, h: Grid, d: nat)
    requires IsGrid(g, d) && IsGrid(h, d)
    requires forall i, j :: 0 <= i < d && 0 <= j < d ==> g[i][j] == h[i][j]
    ensures g == h
  {
    forall i | 0 <= i < d
      ensures g[i] == h[i]
    {
      assert forall j :: 0 <= j < d ==> g[i][j] == h[i][j];
    }
  }

  /** Flipping the same cell twice restores the grid. */
  lemma ToggleTwice(g: Grid, p: Coord, d: nat)
    requires IsGrid(g, d) && InBounds(p, d)
    ensures Toggle(Toggle(g, p), p) == g
  {
    GridExt(Toggle(Toggle(g, p), p), g, d);
  }
}
