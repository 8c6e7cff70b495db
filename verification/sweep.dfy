/** The "hakidashi" sweep: a fixed pass over each parity grid that pushes
    residual errors toward the corner (0, 0), so that the corner cell alone
    tells whether the residual error is trivial. The X pass walks odd rows
    from the bottom up and clears the even row below each one; the Z pass is
    the same walk on the transposed grid. Both stay inside the lattice only
    when its side is odd. */
module Sweep {
  import opened Lattice

  /** The cells one X-pass step at (i, j) may change: (i+1, j), the two
      horizontal neighbours (i, j-1) and (i, j+1), and (i-1, j). */
  predicate TouchedX(i: nat, j: nat, a: nat, b: nat) {
    (a == i + 1 && b == j) || (a == i && (b + 1 == j || b == j + 1)) || (a + 1 == i && b == j)
  }

  /** The cells one Z-pass step at (i, j) may change: the mirror image of
      `TouchedX`. */
  predicate TouchedZ(i: nat, j: nat, a: nat, b: nat) {
    (a == i && b == j + 1) || (b == j && (a + 1 == i || a == i + 1)) || (a == i && b + 1 == j)
  }

  /** The four-cell move of the X pass around the measurement cell (i, j):
      flips (i+1, j), (i, j-1), (i, j+1) and (i-1, j), leaving out the ones
      outside the lattice. */
  function MoveX(g: Grid, d: nat, i: nat, j: nat): (r: Grid)
    requires IsGrid(g, d) && 1 <= i && i + 1 < d && j < d
    ensures IsGrid(r, d)
    ensures forall a, b :: 0 <= a < d && 0 <= b < d ==> r[a][b] == (g[a][b] != TouchedX(i, j, a, b))
  {
    var g1 := Toggle(g, Coord(i + 1, j));
    var g2 := if j != 0 then Toggle(g1, Coord(i, j - 1)) else g1;
    var g3 := if j != d - 1 then Toggle(g2, Coord(i, j + 1)) else g2;
    var r := Toggle(g3, Coord(i - 1, j));
    MoveXCells(g, d, i, j, g1, g2, g3, r);
    r
  }

  /** The four toggles of `MoveX`, cell by cell. */
  lemma MoveXCells(g: Grid, d: nat, i: nat, j: nat, g1: Grid, g2: Grid, g3: Grid, r: Grid)
    requires IsGrid(g, d) && 1 <= i && i + 1 < d && j < d
    requires g1 == Toggle(g, Coord(i + 1, j)) && IsGrid(g1, d)
    requires g2 == (if j != 0 then Toggle(g1, Coord(i, j - 1)) else g1) && IsGrid(g2, d)
    requires g3 == (if j != d - 1 then Toggle(g2, Coord(i, j + 1)) else g2) && IsGrid(g3, d)
    requires r == Toggle(g3, Coord(i - 1, j))
    ensures IsGrid(r, d)
    ensures forall a, b :: 0 <= a < d && 0 <= b < d ==> r[a][b] == (g[a][b] != TouchedX(i, j, a, b))
  {
    forall a, b | 0 <= a < d && 0 <= b < d
      ensures r[a][b] == (g[a][b] != TouchedX(i, j, a, b))
    {
      assert g1[a][b] == (g[a][b] != (a == i + 1 && b == j));
      assert g2[a][b] == (g1[a][b] != (j != 0 && a == i && b + 1 == j));
      assert g3[a][b] == (g2[a][b] != (j != d - 1 && a == i && b == j + 1));
      assert r[a][b] == (g3[a][b] != (a + 1 == i && b == j));
    }
  }

  /** The four-cell move of the Z pass around (i, j): flips (i, j+1),
      (i-1, j), (i+1, j) and (i, j-1), leaving out the ones outside the
      lattice. */
  function MoveZ(g: Grid, d: nat, i: nat, j: nat): (r: Grid)
    requires IsGrid(g, d) && 1 <= j && j + 1 < d && i < d
    ensures IsGrid(r, d)
    ensures forall a, b :: 0 <= a < d && 0 <= b < d ==> r[a][b] == (g[a][b] != TouchedZ(i, j, a, b))
  {
    var g1 := Toggle(g, Coord(i, j + 1));
    var g2 := if i != 0 then Toggle(g1, Coord(i - 1, j)) else g1;
    var g3 := if i != d - 1 then Toggle(g2, Coord(i + 1, j)) else g2;
    var r := Toggle(g3, Coord(i, j - 1));
    MoveZCells(g, d, i, j, g1, g2, g3, r);
    r
  }

  /** The four toggles of `MoveZ`, cell by cell. */
  lemma MoveZCells(g: Grid, d: nat, i: nat, j: nat, g1: Grid, g2: Grid, g3: Grid, r: Grid)
    requires IsGrid(g, d) && 1 <= j && j + 1 < d && i < d
    requires g1 == Toggle(g, Coord(i, j + 1)) && IsGrid(g1, d)
    requires g2 == (if i != 0 then Toggle(g1, Coord(i - 1, j)) else g1) && IsGrid(g2, d)
    requires g3 == (if i != d - 1 then Toggle(g2, Coord(i + 1, j)) else g2) && IsGrid(g3, d)
    requires r == Toggle(g3, Coord(i, j - 1))
    ensures IsGrid(r, d)
    ensures forall a, b :: 0 <= a < d && 0 <= b < d ==> r[a][b] == (g[a][b] != TouchedZ(i, j, a, b))
  {
    forall a, b | 0 <= a < d && 0 <= b < d
      ensures r[a][b] == (g[a][b] != TouchedZ(i, j, a, b))
    {
      assert g1[a][b] == (g[a][b] != (a == i && b == j + 1));
      assert g2[a][b] == (g1[a][b] != (i != 0 && a + 1 == i && b == j));
      assert g3[a][b] == (g2[a][b] != (i != d - 1 && a == i + 1 && b == j));
      assert r[a][b] == (g3[a][b] != (a == i && b + 1 == j));
    }
  }

  /** Applying the same move twice restores the grid. */
  lemma {:induction false} MoveXTwice(g: Grid, d: nat, i: nat, j: nat)
    requires IsGrid(g, d) && 1 <= i && i + 1 < d && j < d
    ensures MoveX(MoveX(g, d, i, j), d, i, j) == g
  {
    GridExt(MoveX(MoveX(g, d, i, j), d, i, j), g, d);
  }

  /** One step of the X pass at odd row `i`, even column `j`: when (i+1, j)
      holds a 1, apply the move, which clears it. */
  function StepX(g: Grid, d: nat, i: nat, j: nat): (r: Grid)
    requires IsGrid(g, d) && i % 2 == 1 && i + 1 < d && j % 2 == 0 && j < d
    ensures IsGrid(r, d)
    ensures !r[i + 1][j]
    ensures forall a, b :: a == i + 1 && 0 <= b < d && b != j ==> r[a][b] == g[a][b]
    ensures forall a, b :: 0 <= a < d && 0 <= b < d && (a + 1 < i || a > i + 1) ==> r[a][b] == g[a][b]
    ensures forall a, b :: 0 <= a < d && 0 <= b < d && IsMeasurementCell(a, b) ==> r[a][b] == g[a][b]
    ensures !g[i + 1][j] ==> r == g
  {
    if g[i + 1][j] then
      MoveXKeeps(g, d, i, j);
      MoveX(g, d, i, j)
    else g
  }

  /** A move at an odd row and even column flips its own cell (i+1, j),
      leaves the rest of row i+1 and every row outside i-1 .. i+1 alone, and
      never touches a measurement cell. */
  lemma MoveXKeeps(g: Grid, d: nat, i: nat, j: nat)
    requires IsGrid(g, d) && i % 2 == 1 && i + 1 < d && j % 2 == 0 && j < d
    ensures MoveX(g, d, i, j)[i + 1][j] == !g[i + 1][j]
    ensures forall a, b :: a == i + 1 && 0 <= b < d && b != j ==> MoveX(g, d, i, j)[a][b] == g[a][b]
    ensures forall a, b :: 0 <= a < d && 0 <= b < d && (a + 1 < i || a > i + 1) ==> MoveX(g, d, i, j)[a][b] == g[a][b]
    ensures forall a, b :: 0 <= a < d && 0 <= b < d && IsMeasurementCell(a, b) ==> MoveX(g, d, i, j)[a][b] == g[a][b]
  {
    var r := MoveX(g, d, i, j);
    assert TouchedX(i, j, i + 1, j);
    forall a, b | 0 <= a < d && 0 <= b < d && IsMeasurementCell(a, b)
      ensures r[a][b] == g[a][b]
    {
      TouchedXIsData(i, j, a, b);
    }
  }

  /** The cells an X move touches around an odd row and even column are all
      data cells. */
  lemma TouchedXIsData(i: nat, j: nat, a: nat, b: nat)
    requires i % 2 == 1 && j % 2 == 0
    ensures TouchedX(i, j, a, b) ==> IsDataCell(a, b)
  {
    if a == i + 1 && b == j {
      assert a + b == (i + 1) + j;
    } else if a == i && b + 1 == j {
      assert a + b + 1 == i + j;
    } else if a == i && b == j + 1 {
      assert a + b == i + j + 1;
    } else if a + 1 == i && b == j {
      assert a + b + 1 == i + j;
    }
  }

  /** The inner loop of the X pass over columns `j .. d-1` of odd row `i`
      (odd columns are skipped). It clears row i+1 at every even column it
      visits, leaves the columns before `j` of that row alone, and changes
      no row outside i-1 .. i+1. */
  function RowX(g: Grid, d: nat, i: nat, j: nat): (r: Grid)
    requires IsGrid(g, d) && i % 2 == 1 && i + 1 < d && j <= d
    ensures IsGrid(r, d)
    ensures forall a, b :: a == i + 1 && j <= b < d && b % 2 == 0 ==> !r[a][b]
    ensures forall a, b :: a == i + 1 && 0 <= b < j ==> r[a][b] == g[a][b]
    ensures forall a, b :: 0 <= a < d && 0 <= b < d && (a + 1 < i || a > i + 1) ==> r[a][b] == g[a][b]
    ensures forall a, b :: 0 <= a < d && 0 <= b < d && IsMeasurementCell(a, b) ==> r[a][b] == g[a][b]
    decreases d - j
  {
    if j == d then g
    else
      var g' := if j % 2 == 0 then StepX(g, d, i, j) else g;
      RowX(g', d, i, j + 1)
  }

  /** The outer loop of the X pass over rows `n-1` down to 0 (even rows are
      skipped). Rows below `n` are left alone, and every even row from 2 up
      to `n` ends with 0 at each even column. */
  function PassX(g: Grid, d: nat, n: nat): (r: Grid)
    requires IsGrid(g, d) && d % 2 == 1 && n <= d
    ensures IsGrid(r, d)
    ensures forall a, b :: n < a < d && 0 <= b < d ==> r[a][b] == g[a][b]
    ensures forall a, b :: 2 <= a <= n && a < d && a % 2 == 0 && 0 <= b < d && b % 2 == 0 ==> !r[a][b]
    ensures forall a, b :: 0 <= a < d && 0 <= b < d && IsMeasurementCell(a, b) ==> r[a][b] == g[a][b]
    decreases n
  {
    if n == 0 then g
    else
      var i := n - 1;
      var g' := if i % 2 == 1 then RowX(g, d, i, 0) else g;
      PassX(g', d, n - 1)
  }

  /** The X half of `hakidashi`. */
  function SweepX(g: Grid, d: nat): (r: Grid)
    requires IsGrid(g, d) && d % 2 == 1
    ensures IsGrid(r, d)
    ensures forall a, b :: 2 <= a < d && a % 2 == 0 && 0 <= b < d && b % 2 == 0 ==> !r[a][b]
    ensures forall a, b :: 0 <= a < d && 0 <= b < d && IsMeasurementCell(a, b) ==> r[a][b] == g[a][b]
    ensures IsZero(g) ==> r == g
  {
    ZeroPassX(g, d);
    PassX(g, d, d)
  }

  /** A row whose lower neighbour is already clear at every even column from
      `j` on is left alone. */
  lemma {:induction false} RowXCleared(g: Grid, d: nat, i: nat, j: nat)
    requires IsGrid(g, d) && i % 2 == 1 && i + 1 < d && j <= d
    requires forall b :: j <= b < d && b % 2 == 0 ==> !g[i + 1][b]
    ensures RowX(g, d, i, j) == g
    decreases d - j
  {
    if j < d {
      RowXCleared(g, d, i, j + 1);
    }
  }

  /** A grid whose even rows from 2 up to `n` are clear at every even column
      is left alone by the X pass. */
  lemma {:induction false} PassXCleared(g: Grid, d: nat, n: nat)
    requires IsGrid(g, d) && d % 2 == 1 && n <= d
    requires forall a, b :: 2 <= a <= n && a < d && a % 2 == 0 && 0 <= b < d && b % 2 == 0 ==> !g[a][b]
    ensures PassX(g, d, n) == g
    decreases n
  {
    if n > 0 {
      var i := n - 1;
      if i % 2 == 1 {
        RowXCleared(g, d, i, 0);
      }
      PassXCleared(g, d, n - 1);
    }
  }

  lemma ZeroPassX(g: Grid, d: nat)
    requires IsGrid(g, d) && d % 2 == 1
    ensures IsZero(g) ==> PassX(g, d, d) == g
  {
    if IsZero(g) {
      PassXCleared(g, d, d);
    }
  }

  /** Sweeping a swept grid changes nothing. */
  lemma SweepXIdempotent(g: Grid, d: nat)
    requires IsGrid(g, d) && d % 2 == 1
    ensures SweepX(SweepX(g, d), d) == SweepX(g, d)
  {
    PassXCleared(SweepX(g, d), d, d);
  }

  /** One step of the Z pass at even row `i`, odd column `j`: when (i, j+1)
      holds a 1, apply the move, which clears it. */
  function StepZ(g: Grid, d: nat, i: nat, j: nat): (r: Grid)
    requires IsGrid(g, d) && j % 2 == 1 && j + 1 < d && i % 2 == 0 && i < d
    ensures IsGrid(r, d)
  {
    if g[i][j + 1] then MoveZ(g, d, i, j) else g
  }

  /** The inner loop of the Z pass over rows `i .. d-1` of odd column `j`
      (odd rows are skipped). */
  function ColZ(g: Grid, d: nat, j: nat, i: nat): (r: Grid)
    requires IsGrid(g, d) && j % 2 == 1 && j + 1 < d && i <= d
    ensures IsGrid(r, d)
    decreases d - i
  {
    if i == d then g
    else
      var g' := if i % 2 == 0 then StepZ(g, d, i, j) else g;
      ColZ(g', d, j, i + 1)
  }

  /** The outer loop of the Z pass over columns `n-1` down to 0 (even
      columns are skipped). */
  function PassZ(g: Grid, d: nat, n: nat): (r: Grid)
    requires IsGrid(g, d) && d % 2 == 1 && n <= d
    ensures IsGrid(r, d)
    decreases n
  {
    if n == 0 then g
    else
      var j := n - 1;
      var g' := if j % 2 == 1 then ColZ(g, d, j, 0) else g;
      PassZ(g', d, n - 1)
  }

  /** The grid mirrored in its main diagonal. */
  function Transpose(g: Grid, d: nat): (r: Grid)
    requires IsGrid(g, d)
    ensures IsGrid(r, d)
    ensures forall a, b :: 0 <= a < d && 0 <= b < d ==> r[a][b] == g[b][a]
  {
    seq(d, a requires 0 <= a < d => seq(d, b requires 0 <= b < d => g[b][a]))
  }

  lemma {:induction false} StepTranspose(g: Grid, d: nat, i: nat, j: nat)
    requires IsGrid(g, d) && j % 2 == 1 && j + 1 < d && i % 2 == 0 && i < d
    ensures StepX(Transpose(g, d), d, j, i) == Transpose(StepZ(g, d, i, j), d)
  {
    var t := Transpose(g, d);
    if g[i][j + 1] {
      var l, r := MoveX(t, d, j, i), Transpose(MoveZ(g, d, i, j), d);
      forall a, b | 0 <= a < d && 0 <= b < d
        ensures l[a][b] == r[a][b]
      {
        assert TouchedX(j, i, a, b) == TouchedZ(i, j, b, a);
      }
      GridExt(l, r, d);
    }
  }

  lemma {:induction false} ColTranspose(g: Grid, d: nat, j: nat, i: nat)
    requires IsGrid(g, d) && j % 2 == 1 && j + 1 < d && i <= d
    ensures RowX(Transpose(g, d), d, j, i) == Transpose(ColZ(g, d, j, i), d)
    decreases d - i
  {
    if i < d {
      var g' := if i % 2 == 0 then StepZ(g, d, i, j) else g;
      if i % 2 == 0 {
        StepTranspose(g, d, i, j);
      }
      ColTranspose(g', d, j, i + 1);
    }
  }

  lemma {:induction false} PassTranspose(g: Grid, d: nat, n: nat)
    requires IsGrid(g, d) && d % 2 == 1 && n <= d
    ensures PassX(Transpose(g, d), d, n) == Transpose(PassZ(g, d, n), d)
    decreases n
  {
    if n > 0 {
      var j := n - 1;
      var g' := if j % 2 == 1 then ColZ(g, d, j, 0) else g;
      if j % 2 == 1 {
        ColTranspose(g, d, j, 0);
      }
      PassTranspose(g', d, n - 1);
    }
  }

  lemma {:induction false} PassZProperties(g: Grid, d: nat)
    requires IsGrid(g, d) && d % 2 == 1
    ensures forall a, b :: 0 <= a < d && a % 2 == 0 && 2 <= b < d && b % 2 == 0 ==> !PassZ(g, d, d)[a][b]
    ensures forall a, b :: 0 <= a < d && 0 <= b < d && IsMeasurementCell(a, b) ==> PassZ(g, d, d)[a][b] == g[a][b]
  {
    var r := PassZ(g, d, d);
    var t := Transpose(g, d);
    PassTranspose(g, d, d);
    var s := SweepX(t, d);
    assert s == Transpose(r, d);
    forall a, b | 0 <= a < d && a % 2 == 0 && 2 <= b < d && b % 2 == 0
      ensures !r[a][b]
    {
      assert r[a][b] == s[b][a];
      assert !s[b][a];
    }
    forall a, b | 0 <= a < d && 0 <= b < d && IsMeasurementCell(a, b)
      ensures r[a][b] == g[a][b]
    {
      assert r[a][b] == s[b][a];
      assert IsMeasurementCell(b, a);
      assert s[b][a] == t[b][a];
    }
  }

  /** A grid already clear at every even column from 2 on, at each even row,
      is left alone by the Z pass. */
  lemma {:induction false} PassZCleared(g: Grid, d: nat)
    requires IsGrid(g, d) && d % 2 == 1
    requires forall a, b :: 0 <= a < d && a % 2 == 0 && 2 <= b < d && b % 2 == 0 ==> !g[a][b]
    ensures PassZ(g, d, d) == g
  {
    var r := PassZ(g, d, d);
    var t := Transpose(g, d);
    PassTranspose(g, d, d);
    forall a, b | 2 <= a < d && a % 2 == 0 && 0 <= b < d && b % 2 == 0
      ensures !t[a][b]
    {
      assert t[a][b] == g[b][a];
    }
    PassXCleared(t, d, d);
    forall a, b | 0 <= a < d && 0 <= b < d
      ensures r[a][b] == g[a][b]
    {
      assert Transpose(r, d)[b][a] == r[a][b];
      assert t[b][a] == g[a][b];
    }
    GridExt(r, g, d);
  }

  /** The Z half of `hakidashi`: the X pass seen through the transpose. It
      clears every even column from 2 on at each even row and never changes
      a measurement cell. */
  function SweepZ(g: Grid, d: nat): (r: Grid)
    requires IsGrid(g, d) && d % 2 == 1
    ensures IsGrid(r, d)
    ensures forall a, b :: 0 <= a < d && a % 2 == 0 && 2 <= b < d && b % 2 == 0 ==> !r[a][b]
    ensures forall a, b :: 0 <= a < d && 0 <= b < d && IsMeasurementCell(a, b) ==> r[a][b] == g[a][b]
    ensures IsZero(g) ==> r == g
  {
    PassZProperties(g, d);
    ZeroPassZ(g, d);
    PassZ(g, d, d)
  }

  lemma ZeroPassZ(g: Grid, d: nat)
    requires IsGrid(g, d) && d % 2 == 1
    ensures IsZero(g) ==> PassZ(g, d, d) == g
  {
    if IsZero(g) {
      PassZCleared(g, d);
    }
  }

  /** Sweeping a swept grid changes nothing. */
  lemma SweepZIdempotent(g: Grid, d: nat)
    requires IsGrid(g, d) && d % 2 == 1
    ensures SweepZ(SweepZ(g, d), d) == SweepZ(g, d)
  {
    PassZCleared(SweepZ(g, d), d);
  }

  /** `hakidashi`: each pass reads and writes only its own grid. */
  function Hakidashi(x: Grid, z: Grid, d: nat): (r: (Grid, Grid))
    requires IsGrid(x, d) && IsGrid(z, d) && d % 2 == 1
    ensures IsGrid(r.0, d) && IsGrid(r.1, d)
    ensures forall a, b :: 2 <= a < d && a % 2 == 0 && 0 <= b < d && b % 2 == 0 ==> !r.0[a][b]
    ensures forall a, b :: 0 <= a < d && a % 2 == 0 && 2 <= b < d && b % 2 == 0 ==> !r.1[a][b]
    ensures forall a, b :: 0 <= a < d && 0 <= b < d && IsMeasurementCell(a, b) ==> r.0[a][b] == x[a][b] && r.1[a][b] == z[a][b]
    ensures IsZero(x) && IsZero(z) ==> r == (x, z)
  {
    (SweepX(x, d), SweepZ(z, d))
  }
}
