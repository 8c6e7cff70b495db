/** Syndrome extraction: a measurement cell is faulty when its in-bounds
    data neighbours hold an odd number of 1s in the grid it checks. */
module Syndrome {
  import opened Lattice

  /** 1 when (i, j) lies inside the lattice and holds a 1. A neighbour
      outside the lattice contributes nothing. */
  function Bit(g: Grid, d: nat, i: int, j: int): nat
    requires IsGrid(g, d)
  {
    if 0 <= i < d && 0 <= j < d && g[i][j] then 1 else 0
  }

  /** Number of 1s among the neighbours (i, j-1), (i, j+1), (i+1, j) and
      (i-1, j) that lie inside the lattice. */
  function NeighbourOnes(g: Grid, d: nat, i: nat, j: nat): nat
    requires IsGrid(g, d)
  {
    Bit(g, d, i, j - 1) + Bit(g, d, i, j + 1) + Bit(g, d, i + 1, j) + Bit(g, d, i - 1, j)
  }

  /** The grid a measurement cell in column `j` reads. */
  function CheckedGrid(x: Grid, z: Grid, j: nat): Grid {
    if ChecksX(j) then x else z
  }

  predicate Faulty(x: Grid, z: Grid, d: nat, i: nat, j: nat)
    requires IsGrid(x, d) && IsGrid(z, d)
  {
    IsMeasurementCell(i, j) && NeighbourOnes(CheckedGrid(x, z, j), d, i, j) % 2 == 1
  }

  /** Number of measurement cells among columns `0 .. n-1` of row `i`. */
  function RowMeasurements(i: nat, n: nat): nat {
    if n == 0 then 0 else RowMeasurements(i, n - 1) + (if IsMeasurementCell(i, n - 1) then 1 else 0)
  }

  /** Number of measurement cells among rows `0 .. m-1` of a d-wide lattice. */
  function GridMeasurements(d: nat, m: nat): nat {
    if m == 0 then 0 else GridMeasurements(d, m - 1) + RowMeasurements(m - 1, d)
  }

  /** Number of measurement cells of the d×d lattice. */
  function MeasurementCount(d: nat): nat {
    GridMeasurements(d, d)
  }

  /** Faulty cells among columns `0 .. n-1` of row `i`: at most the number
      of measurement cells there. */
  function RowFaults(x: Grid, z: Grid, d: nat, i: nat, n: nat): (r: nat)
    requires IsGrid(x, d) && IsGrid(z, d) && n <= d
    ensures r <= RowMeasurements(i, n)
  {
    if n == 0 then 0
    else RowFaults(x, z, d, i, n - 1) + (if Faulty(x, z, d, i, n - 1) then 1 else 0)
  }

  /** Faulty cells among rows `0 .. m-1`. */
  function GridFaults(x: Grid, z: Grid, d: nat, m: nat): (r: nat)
    requires IsGrid(x, d) && IsGrid(z, d) && m <= d
    ensures r <= GridMeasurements(d, m)
  {
    if m == 0 then 0
    else GridFaults(x, z, d, m - 1) + RowFaults(x, z, d, m - 1, d)
  }

  lemma {:induction false} RowFaultsZero(x: Grid, z: Grid, d: nat, i: nat, n: nat)
    requires IsGrid(x, d) && IsGrid(z, d) && n <= d
    ensures RowFaults(x, z, d, i, n) == 0 <==> forall j :: 0 <= j < n ==> !Faulty(x, z, d, i, j)
  {
    if n > 0 {
      RowFaultsZero(x, z, d, i, n - 1);
    }
  }

  lemma {:induction false} GridFaultsZero(x: Grid, z: Grid, d: nat, m: nat)
    requires IsGrid(x, d) && IsGrid(z, d) && m <= d
    ensures GridFaults(x, z, d, m) == 0 <==> forall i, j :: 0 <= i < m && 0 <= j < d ==> !Faulty(x, z, d, i, j)
  {
    if m > 0 {
      GridFaultsZero(x, z, d, m - 1);
      RowFaultsZero(x, z, d, m - 1, d);
    }
  }

  /** The faulty syndrome count of `calculate_score`. */
  function FaultyCount(x: Grid, z: Grid, d: nat): (r: nat)
    requires IsGrid(x, d) && IsGrid(z, d)
    ensures r <= MeasurementCount(d)
    ensures r == 0 <==> forall i, j :: 0 <= i < d && 0 <= j < d ==> !Faulty(x, z, d, i, j)
  {
    GridFaultsZero(x, z, d, d);
    GridFaults(x, z, d, d)
  }

  /** Two all-zero grids have no faulty measurement cell. */
  lemma ZeroGridsHaveCleanSyndrome(x: Grid, z: Grid, d: nat)
    requires IsGrid(x, d) && IsGrid(z, d) && IsZero(x) && IsZero(z)
    ensures FaultyCount(x, z, d) == 0
  {
    forall i, j | 0 <= i < d && 0 <= j < d
      ensures !Faulty(x, z, d, i, j)
    {
      assert NeighbourOnes(CheckedGrid(x, z, j), d, i, j) == 0;
    }
  }

  lemma {:induction false} RowMeasurementsFormula(i: nat, n: nat)
    ensures RowMeasurements(i, n) == if i % 2 == 0 then n / 2 else (n + 1) / 2
  {
    if n > 0 {
      RowMeasurementsFormula(i, n - 1);
    }
  }

  lemma MulSucc(x: nat, a: nat)
    ensures (x + 1) * a == x * a + a
  {
  }

  lemma {:induction false} GridMeasurementsFormula(d: nat, m: nat)
    ensures GridMeasurements(d, m) == (m + 1) / 2 * (d / 2) + m / 2 * ((d + 1) / 2)
  {
    if m > 0 {
      var a, b := d / 2, (d + 1) / 2;
      GridMeasurementsFormula(d, m - 1);
      RowMeasurementsFormula(m - 1, d);
      var h := (m - 1) / 2;
      if m % 2 == 0 {
        assert m / 2 == h + 1 && (m + 1) / 2 == h + 1 && m / 2 == ((m - 1) + 1) / 2;
        MulSucc(h, b);
      } else {
        assert (m + 1) / 2 == h + 1 && m / 2 == h && ((m - 1) + 1) / 2 == h;
        MulSucc(h, a);
      }
    }
  }

  lemma HalfOf(n: int, q: int, rem: int)
    requires 0 <= rem < 2 && n == 2 * q + rem
    ensures n / 2 == q
  {
  }

  lemma {:induction false} SquareHalves(d: nat)
    ensures (d + 1) / 2 * (d / 2) + d / 2 * ((d + 1) / 2) == d * d / 2
  {
    var k := d / 2;
    var kk := k * k;
    if d % 2 == 0 {
      assert (d + 1) / 2 == k;
      assert d * d == 4 * kk by {
        assert d == 2 * k;
      }
      HalfOf(d * d, 2 * kk, 0);
    } else {
      assert (d + 1) / 2 == k + 1;
      MulSucc(k, k);
      assert d * d == 4 * kk + 4 * k + 1 by {
        assert d == 2 * k + 1;
      }
      HalfOf(d * d, 2 * kk + 2 * k, 1);
    }
  }

  lemma HalfSquare(d: nat)
    ensures MeasurementCount(d) == d * d / 2
  {
    GridMeasurementsFormula(d, d);
    SquareHalves(d);
  }

  /** Half of the d² cells (rounded down) are measurement cells: 220 for the
      21×21 lattice, the constant `calculate_score` divides by. */
  lemma {:induction false} MeasurementCountFormula(d: nat)
    ensures MeasurementCount(d) == d * d / 2
    ensures d == 21 ==> MeasurementCount(d) == 220
  {
    HalfSquare(d);
    if d == 21 {
      assert d * d == 441;
    }
  }

  /** Running sum of the first `dir` directions of the Rust scorer's offset table
      `dx = [0, 0, 1, -1]`, direction `dir` visiting (i + dx[dir], j + dx[3 - dir]). */
  function PartialOnes(g: Grid, d: nat, i: nat, j: nat, dir: nat): nat
    requires IsGrid(g, d) && dir <= 4
  {
    if dir == 0 then 0
    else if dir == 1 then Bit(g, d, i, j - 1)
    else if dir == 2 then Bit(g, d, i, j - 1) + Bit(g, d, i, j + 1)
    else if dir == 3 then Bit(g, d, i, j - 1) + Bit(g, d, i, j + 1) + Bit(g, d, i + 1, j)
    else NeighbourOnes(g, d, i, j)
  }

  /** The inner loop over the four directions for the measurement cell
      (i, j): counts the 1s of its in-bounds neighbours in the grid that
      cell checks. */
  method NeighbourCount(x: Grid, z: Grid, d: nat, i: nat, j: nat) returns (correction: nat)
    requires IsGrid(x, d) && IsGrid(z, d)
    ensures correction == NeighbourOnes(CheckedGrid(x, z, j), d, i, j)
  {
    var dx: seq<int> := [0, 0, 1, -1];
    ghost var g := CheckedGrid(x, z, j);
    correction := 0;
    var dir := 0;
    while dir < 4
      invariant 0 <= dir <= 4
      invariant correction == PartialOnes(g, d, i, j, dir)
    {
      var nx := i + dx[dir];
      var ny := j + dx[3 - dir];
      if !(nx < 0 || ny < 0 || nx >= d || ny >= d) {
        if j % 2 == 1 {
          if x[nx][ny] {
            correction := correction + 1;
          }
        } else {
          if z[nx][ny] {
            correction := correction + 1;
          }
        }
      }
      dir := dir + 1;
    }
  }

  /** The loops of `calculate_score` over all cells, adding `correction % 2` for every
      measurement cell. */
  method CountFaulty(x: Grid, z: Grid, d: nat) returns (count: nat)
    requires IsGrid(x, d) && IsGrid(z, d)
    ensures count == FaultyCount(x, z, d)
    ensures count <= MeasurementCount(d)
  {
    count := 0;
    var i := 0;
    while i < d
      invariant 0 <= i <= d
      invariant count == GridFaults(x, z, d, i)
    {
      var j := 0;
      while j < d
        invariant 0 <= j <= d
        invariant count == GridFaults(x, z, d, i) + RowFaults(x, z, d, i, j)
      {
        assert RowFaults(x, z, d, i, j + 1) == RowFaults(x, z, d, i, j) + (if Faulty(x, z, d, i, j) then 1 else 0);
        if (i + j) % 2 != 0 {
          var correction := NeighbourCount(x, z, d, i, j);
          assert Faulty(x, z, d, i, j) <==> correction % 2 == 1;
          count := count + correction % 2;
        } else {
          assert !Faulty(x, z, d, i, j);
        }
        j := j + 1;
      }
      assert GridFaults(x, z, d, i + 1) == GridFaults(x, z, d, i) + RowFaults(x, z, d, i, d);
      i := i + 1;
    }
  }
}
