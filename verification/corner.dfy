/** Why the sweep's corner cells decide the bonus: every move of the sweep
    flips an even number of the data cells around each check, so the
    syndrome survives the sweep; when that syndrome is clean, the checks
    force every data-cell error left behind into row 0 of the X grid and
    column 0 of the Z grid, each a copy of the corner cell. */
module Corner {
  import opened Lattice
  import opened Syndrome
  import opened Sweep
  import opened Score

  /** A measurement cell that reads the X grid: even row, odd column. */
  predicate XCheck(d: nat, a: nat, b: nat) {
    a < d && b < d && a % 2 == 0 && b % 2 == 1
  }

  /** 1 when the move at (i, j) flips the in-lattice cell (x, y). */
  function FlipX(d: nat, i: nat, j: nat, x: int, y: int): nat {
    if 0 <= x < d && 0 <= y < d && TouchedX(i, j, x, y) then 1 else 0
  }

  lemma BitAfterMoveX(g: Grid, d: nat, i: nat, j: nat, x: int, y: int)
    requires IsGrid(g, d) && 1 <= i && i + 1 < d && j < d
    ensures Bit(MoveX(g, d, i, j), d, x, y) == if FlipX(d, i, j, x, y) == 1 then 1 - Bit(g, d, x, y) else Bit(g, d, x, y)
    ensures Bit(g, d, x, y) <= 1 && FlipX(d, i, j, x, y) <= 1
  {
  }

  /** A move at an odd row and even column touches an X check's
      neighbourhood in none or exactly two of its cells. */
  lemma FlipsAroundXCheck(d: nat, i: nat, j: nat, a: nat, b: nat)
    requires 1 <= i && i + 1 < d && j < d && i % 2 == 1 && j % 2 == 0 && XCheck(d, a, b)
    ensures var n := FlipX(d, i, j, a, b - 1) + FlipX(d, i, j, a, b + 1) + FlipX(d, i, j, a + 1, b) + FlipX(d, i, j, a - 1, b);
      n == 0 || n == 2
  {
  }

  /** Flipping an even number of four bits keeps the parity of their sum. */
  lemma EvenFlipsKeepParity(g1: nat, g2: nat, g3: nat, g4: nat, f1: nat, f2: nat, f3: nat, f4: nat,
                            r1: nat, r2: nat, r3: nat, r4: nat)
    requires g1 <= 1 && g2 <= 1 && g3 <= 1 && g4 <= 1
    requires r1 == (if f1 == 1 then 1 - g1 else g1) && r2 == (if f2 == 1 then 1 - g2 else g2)
    requires r3 == (if f3 == 1 then 1 - g3 else g3) && r4 == (if f4 == 1 then 1 - g4 else g4)
    requires f1 <= 1 && f2 <= 1 && f3 <= 1 && f4 <= 1
    requires f1 + f2 + f3 + f4 == 0 || f1 + f2 + f3 + f4 == 2
    ensures (r1 + r2 + r3 + r4) % 2 == (g1 + g2 + g3 + g4) % 2
  {
    var diff := (r1 + r2 + r3 + r4) - (g1 + g2 + g3 + g4);
    assert diff == -2 || diff == 0 || diff == 2;
  }

  /** One move of the X pass keeps the parity of every X check. */
  lemma MoveXCheck(g: Grid, d: nat, i: nat, j: nat, a: nat, b: nat)
    requires IsGrid(g, d) && 1 <= i && i + 1 < d && j < d && i % 2 == 1 && j % 2 == 0
    requires XCheck(d, a, b)
    ensures NeighbourOnes(MoveX(g, d, i, j), d, a, b) % 2 == NeighbourOnes(g, d, a, b) % 2
  {
    var r := MoveX(g, d, i, j);
    BitAfterMoveX(g, d, i, j, a, b - 1);
    BitAfterMoveX(g, d, i, j, a, b + 1);
    BitAfterMoveX(g, d, i, j, a + 1, b);
    BitAfterMoveX(g, d, i, j, a - 1, b);
    FlipsAroundXCheck(d, i, j, a, b);
    EvenFlipsKeepParity(
      Bit(g, d, a, b - 1), Bit(g, d, a, b + 1), Bit(g, d, a + 1, b), Bit(g, d, a - 1, b),
      FlipX(d, i, j, a, b - 1), FlipX(d, i, j, a, b + 1), FlipX(d, i, j, a + 1, b), FlipX(d, i, j, a - 1, b),
      Bit(r, d, a, b - 1), Bit(r, d, a, b + 1), Bit(r, d, a + 1, b), Bit(r, d, a - 1, b));
    assert NeighbourOnes(r, d, a, b) == Bit(r, d, a, b - 1) + Bit(r, d, a, b + 1) + Bit(r, d, a + 1, b) + Bit(r, d, a - 1, b);
    assert NeighbourOnes(g, d, a, b) == Bit(g, d, a, b - 1) + Bit(g, d, a, b + 1) + Bit(g, d, a + 1, b) + Bit(g, d, a - 1, b);
  }

  /** Every X check reads the same parity in `g` and in `h`. */
  predicate SameXSyndrome(g: Grid, h: Grid, d: nat)
    requires IsGrid(g, d) && IsGrid(h, d)
  {
    forall a: nat, b: nat :: a < d && b < d && XCheck(d, a, b) ==> NeighbourOnes(g, d, a, b) % 2 == NeighbourOnes(h, d, a, b) % 2
  }

  /** No X check of `g` reads odd parity. */
  predicate XClean(g: Grid, d: nat)
    requires IsGrid(g, d)
  {
    forall a: nat, b: nat :: a < d && b < d && XCheck(d, a, b) ==> NeighbourOnes(g, d, a, b) % 2 == 0
  }

  lemma SameXSyndromeTrans(f: Grid, g: Grid, h: Grid, d: nat)
    requires IsGrid(f, d) && IsGrid(g, d) && IsGrid(h, d)
    requires SameXSyndrome(f, g, d) && SameXSyndrome(g, h, d)
    ensures SameXSyndrome(f, h, d)
  {
  }

  lemma StepXSyndrome(g: Grid, d: nat, i: nat, j: nat)
    requires IsGrid(g, d) && i % 2 == 1 && i + 1 < d && j % 2 == 0 && j < d
    ensures SameXSyndrome(g, StepX(g, d, i, j), d)
  {
    if g[i + 1][j] {
      forall a, b | XCheck(d, a, b)
        ensures NeighbourOnes(g, d, a, b) % 2 == NeighbourOnes(MoveX(g, d, i, j), d, a, b) % 2
      {
        MoveXCheck(g, d, i, j, a, b);
      }
    }
  }

  lemma {:induction false} RowXSyndrome(g: Grid, d: nat, i: nat, j: nat)
    requires IsGrid(g, d) && i % 2 == 1 && i + 1 < d && j <= d
    ensures SameXSyndrome(g, RowX(g, d, i, j), d)
    decreases d - j
  {
    if j < d {
      var g' := if j % 2 == 0 then StepX(g, d, i, j) else g;
      if j % 2 == 0 {
        StepXSyndrome(g, d, i, j);
      }
      var p := RowX(g', d, i, j + 1);
      assert p == RowX(g, d, i, j);
      RowXSyndrome(g', d, i, j + 1);
      SameXSyndromeTrans(g, g', p, d);
    }
  }

  lemma {:induction false} PassXSyndrome(g: Grid, d: nat, n: nat)
    requires IsGrid(g, d) && d % 2 == 1 && n <= d
    ensures SameXSyndrome(g, PassX(g, d, n), d)
    decreases n
  {
    if n > 0 {
      var i := n - 1;
      var g' := if i % 2 == 1 then RowX(g, d, i, 0) else g;
      if i % 2 == 1 {
        RowXSyndrome(g, d, i, 0);
      }
      var p := PassX(g', d, n - 1);
      assert p == PassX(g, d, n);
      PassXSyndrome(g', d, n - 1);
      SameXSyndromeTrans(g, g', p, d);
    }
  }

  /** The X pass never changes what an X check reads. */
  lemma SweepXKeepsSyndrome(g: Grid, d: nat)
    requires IsGrid(g, d) && d % 2 == 1
    ensures SameXSyndrome(g, SweepX(g, d), d)
  {
    PassXSyndrome(g, d, d);
  }

  /** What the X pass leaves behind: every even row from 2 on is clear at its
      even columns. */
  predicate EvenRowsClear(s: Grid, d: nat)
    requires IsGrid(s, d)
  {
    forall a, b :: 2 <= a < d && a % 2 == 0 && 0 <= b < d && b % 2 == 0 ==> !s[a][b]
  }

  /** The X check just below an odd-row, odd-column cell sees only that cell
      once the cells around it are clear, so a clean check clears it. */
  lemma OddCellClear(s: Grid, d: nat, a: nat, b: nat)
    requires IsGrid(s, d) && d % 2 == 1 && XClean(s, d) && EvenRowsClear(s, d)
    requires a % 2 == 1 && a < d && b % 2 == 1 && b < d
    requires a + 2 < d ==> !s[a + 2][b]
    ensures !s[a][b]
  {
    assert XCheck(d, a + 1, b);
    assert Bit(s, d, a + 1, b - 1) == 0;
    assert Bit(s, d, a + 1, b + 1) == 0;
    assert Bit(s, d, a + 2, b) == 0;
    assert NeighbourOnes(s, d, a + 1, b) == Bit(s, d, a + 1, b - 1) + Bit(s, d, a + 1, b + 1) + Bit(s, d, a + 2, b) + Bit(s, d, a, b);
  }

  lemma {:induction false} OddRowClear(s: Grid, d: nat, a: nat)
    requires IsGrid(s, d) && d % 2 == 1 && XClean(s, d) && EvenRowsClear(s, d)
    requires a % 2 == 1 && a < d
    ensures forall b :: 0 <= b < d && b % 2 == 1 ==> !s[a][b]
    decreases d - a
  {
    if a + 2 < d {
      OddRowClear(s, d, a + 2);
    }
    forall b | 0 <= b < d && b % 2 == 1
      ensures !s[a][b]
    {
      OddCellClear(s, d, a, b);
    }
  }

  /** The X check between two even cells of row 0 sees only those two cells
      once row 1 is clear, so a clean check makes them equal. */
  lemma RowZeroStep(s: Grid, d: nat, b: nat)
    requires IsGrid(s, d) && XClean(s, d) && b % 2 == 0 && b + 2 < d
    requires !s[1][b + 1]
    ensures s[0][b + 2] == s[0][b]
  {
    assert XCheck(d, 0, b + 1);
    assert NeighbourOnes(s, d, 0, b + 1) == Bit(s, d, 0, b) + Bit(s, d, 0, b + 2) + Bit(s, d, 1, b + 1) + Bit(s, d, -1, b + 1);
  }

  lemma {:induction false} RowZeroConstant(s: Grid, d: nat, b: nat)
    requires IsGrid(s, d) && d % 2 == 1 && XClean(s, d) && EvenRowsClear(s, d)
    requires b % 2 == 0 && b < d
    ensures s[0][b] == s[0][0]
    decreases b
  {
    if b > 0 {
      RowZeroConstant(s, d, b - 2);
      OddRowClear(s, d, 1);
      RowZeroStep(s, d, b - 2);
    }
  }

  /** A grid with a clean X syndrome whose even rows from 2 on are clear at
      their even columns holds data-cell errors only in row 0, and there all
      of them equal the corner cell. */
  lemma {:induction false} CleanXResidue(s: Grid, d: nat)
    requires IsGrid(s, d) && d % 2 == 1 && XClean(s, d) && EvenRowsClear(s, d)
    ensures forall a, b :: 1 <= a < d && 0 <= b < d && IsDataCell(a, b) ==> !s[a][b]
    ensures forall b :: 0 <= b < d && b % 2 == 0 ==> s[0][b] == s[0][0]
  {
    forall a, b | 1 <= a < d && 0 <= b < d && IsDataCell(a, b)
      ensures !s[a][b]
    {
      if a % 2 == 1 {
        OddRowClear(s, d, a);
      }
    }
    forall b | 0 <= b < d && b % 2 == 0
      ensures s[0][b] == s[0][0]
    {
      RowZeroConstant(s, d, b);
    }
  }

  /** A measurement cell that reads the Z grid: odd row, even column. */
  predicate ZCheck(d: nat, a: nat, b: nat) {
    a < d && b < d && a % 2 == 1 && b % 2 == 0
  }

  /** Every Z check reads the same parity in `g` and in `h`. */
  predicate SameZSyndrome(g: Grid, h: Grid, d: nat)
    requires IsGrid(g, d) && IsGrid(h, d)
  {
    forall a: nat, b: nat :: a < d && b < d && ZCheck(d, a, b) ==> NeighbourOnes(g, d, a, b) % 2 == NeighbourOnes(h, d, a, b) % 2
  }

  /** No Z check of `g` reads odd parity. */
  predicate ZClean(g: Grid, d: nat)
    requires IsGrid(g, d)
  {
    forall a: nat, b: nat :: a < d && b < d && ZCheck(d, a, b) ==> NeighbourOnes(g, d, a, b) % 2 == 0
  }

  /** Transposing a grid carries the neighbourhood of (a, b) to that of (b, a). */
  lemma TransposeNeighbours(g: Grid, d: nat, a: nat, b: nat)
    requires IsGrid(g, d) && a < d && b < d
    ensures NeighbourOnes(Transpose(g, d), d, b, a) == NeighbourOnes(g, d, a, b)
  {
    var t := Transpose(g, d);
    assert Bit(t, d, b, a - 1) == Bit(g, d, a - 1, b);
    assert Bit(t, d, b, a + 1) == Bit(g, d, a + 1, b);
    assert Bit(t, d, b + 1, a) == Bit(g, d, a, b + 1);
    assert Bit(t, d, b - 1, a) == Bit(g, d, a, b - 1);
  }

  /** The Z pass never changes what a Z check reads. */
  lemma SweepZKeepsSyndrome(g: Grid, d: nat)
    requires IsGrid(g, d) && d % 2 == 1
    ensures SameZSyndrome(g, SweepZ(g, d), d)
  {
    var t, r := Transpose(g, d), SweepZ(g, d);
    PassTranspose(g, d, d);
    SweepXKeepsSyndrome(t, d);
    forall a: nat, b: nat | a < d && b < d && ZCheck(d, a, b)
      ensures NeighbourOnes(g, d, a, b) % 2 == NeighbourOnes(r, d, a, b) % 2
    {
      assert XCheck(d, b, a);
      TransposeNeighbours(g, d, a, b);
      TransposeNeighbours(r, d, a, b);
    }
  }

  /** The Z-grid counterpart of `CleanXResidue`, read through the
      transposition that turns the Z pass into the X pass. */
  lemma CleanZResidue(g: Grid, d: nat)
    requires IsGrid(g, d) && d % 2 == 1 && ZClean(g, d)
    ensures forall a, b :: 0 <= a < d && 1 <= b < d && IsDataCell(a, b) ==> !SweepZ(g, d)[a][b]
    ensures forall a :: 0 <= a < d && a % 2 == 0 ==> SweepZ(g, d)[a][0] == SweepZ(g, d)[0][0]
  {
    var t, r := Transpose(g, d), SweepZ(g, d);
    PassTranspose(g, d, d);
    var s := SweepX(t, d);
    assert s == Transpose(r, d);
    SweepXKeepsSyndrome(t, d);
    forall a: nat, b: nat | a < d && b < d && XCheck(d, a, b)
      ensures NeighbourOnes(s, d, a, b) % 2 == 0
    {
      assert ZCheck(d, b, a);
      TransposeNeighbours(g, d, b, a);
    }
    CleanXResidue(s, d);
    forall a, b | 0 <= a < d && 1 <= b < d && IsDataCell(a, b)
      ensures !r[a][b]
    {
      assert r[a][b] == s[b][a];
      assert IsDataCell(b, a);
    }
    forall a | 0 <= a < d && a % 2 == 0
      ensures r[a][0] == r[0][0]
    {
      assert r[a][0] == s[0][a];
    }
  }

  /** A measurement cell that is not faulty reads even parity in its grid. */
  lemma QuietCell(x: Grid, z: Grid, d: nat, a: nat, b: nat)
    requires IsGrid(x, d) && IsGrid(z, d) && IsMeasurementCell(a, b) && !Faulty(x, z, d, a, b)
    ensures NeighbourOnes(CheckedGrid(x, z, b), d, a, b) % 2 == 0
  {
  }

  /** With a clean syndrome every X check and every Z check reads even parity. */
  lemma CleanSyndromeChecks(x: Grid, z: Grid, d: nat)
    requires IsGrid(x, d) && IsGrid(z, d) && FaultyCount(x, z, d) == 0
    ensures XClean(x, d) && ZClean(z, d)
  {
    assert forall i, j :: 0 <= i < d && 0 <= j < d ==> !Faulty(x, z, d, i, j);
    forall a: nat, b: nat | a < d && b < d && XCheck(d, a, b)
      ensures NeighbourOnes(x, d, a, b) % 2 == 0
    {
      QuietCell(x, z, d, a, b);
      assert CheckedGrid(x, z, b) == x;
    }
    forall a: nat, b: nat | a < d && b < d && ZCheck(d, a, b)
      ensures NeighbourOnes(z, d, a, b) % 2 == 0
    {
      QuietCell(x, z, d, a, b);
      assert CheckedGrid(x, z, b) == z;
    }
  }

  /** When no measurement cell is faulty, the sweep leaves X errors only in
      row 0 and Z errors only in column 0, each line a copy of its corner
      cell: the corner alone tells whether a logical error remains. */
  lemma CleanSyndromeSweepsToCorner(x: Grid, z: Grid, d: nat)
    requires IsGrid(x, d) && IsGrid(z, d) && d % 2 == 1 && FaultyCount(x, z, d) == 0
    ensures var r := Hakidashi(x, z, d);
      (forall a, b :: 1 <= a < d && 0 <= b < d && IsDataCell(a, b) ==> !r.0[a][b]) &&
      (forall b :: 0 <= b < d && b % 2 == 0 ==> r.0[0][b] == r.0[0][0])
    ensures var r := Hakidashi(x, z, d);
      (forall a, b :: 0 <= a < d && 1 <= b < d && IsDataCell(a, b) ==> !r.1[a][b]) &&
      (forall a :: 0 <= a < d && a % 2 == 0 ==> r.1[a][0] == r.1[0][0])
  {
    CleanSyndromeChecks(x, z, d);
    var s := SweepX(x, d);
    SweepXKeepsSyndrome(x, d);
    assert XClean(s, d);
    CleanXResidue(s, d);
    CleanZResidue(z, d);
  }

  /** Two grid pairs whose cells are faulty at the same places. */
  predicate SameFaults(x: Grid, z: Grid, x': Grid, z': Grid, d: nat)
    requires IsGrid(x, d) && IsGrid(z, d) && IsGrid(x', d) && IsGrid(z', d)
  {
    forall i: nat, j: nat :: i < d && j < d ==> (Faulty(x, z, d, i, j) <==> Faulty(x', z', d, i, j))
  }

  lemma {:induction false} RowFaultsSame(x: Grid, z: Grid, x': Grid, z': Grid, d: nat, i: nat, n: nat)
    requires IsGrid(x, d) && IsGrid(z, d) && IsGrid(x', d) && IsGrid(z', d)
    requires SameFaults(x, z, x', z', d) && i < d && n <= d
    ensures RowFaults(x, z, d, i, n) == RowFaults(x', z', d, i, n)
  {
    if n > 0 {
      RowFaultsSame(x, z, x', z', d, i, n - 1);
    }
  }

  lemma {:induction false} GridFaultsSame(x: Grid, z: Grid, x': Grid, z': Grid, d: nat, m: nat)
    requires IsGrid(x, d) && IsGrid(z, d) && IsGrid(x', d) && IsGrid(z', d)
    requires SameFaults(x, z, x', z', d) && m <= d
    ensures GridFaults(x, z, d, m) == GridFaults(x', z', d, m)
  {
    if m > 0 {
      GridFaultsSame(x, z, x', z', d, m - 1);
      RowFaultsSame(x, z, x', z', d, m - 1, d);
    }
  }

  /** The sweep never changes the syndrome: every measurement cell is faulty
      after it exactly when it was faulty before. */
  lemma HakidashiKeepsSyndrome(x: Grid, z: Grid, d: nat)
    requires IsGrid(x, d) && IsGrid(z, d) && d % 2 == 1
    ensures var r := Hakidashi(x, z, d);
      forall i, j :: 0 <= i < d && 0 <= j < d ==> (Faulty(r.0, r.1, d, i, j) <==> Faulty(x, z, d, i, j))
    ensures var r := Hakidashi(x, z, d); FaultyCount(r.0, r.1, d) == FaultyCount(x, z, d)
  {
    var r := Hakidashi(x, z, d);
    SweepXKeepsSyndrome(x, d);
    SweepZKeepsSyndrome(z, d);
    forall i: nat, j: nat | i < d && j < d
      ensures Faulty(x, z, d, i, j) <==> Faulty(r.0, r.1, d, i, j)
    {
      if IsMeasurementCell(i, j) {
        if ChecksX(j) {
          assert XCheck(d, i, j);
        } else {
          assert ZCheck(d, i, j);
        }
      }
    }
    GridFaultsSame(x, z, r.0, r.1, d, d);
  }

  /** No data cell of `g` holds an error. */
  predicate DataClear(g: Grid, d: nat)
    requires IsGrid(g, d)
  {
    forall a, b :: 0 <= a < d && 0 <= b < d && IsDataCell(a, b) ==> !g[a][b]
  }

  /** A grid whose data-cell errors all sit in row 0, each a copy of the
      corner, is clear exactly when its corner is. */
  lemma RowCornerDecides(s: Grid, d: nat)
    requires IsGrid(s, d) && 0 < d
    requires forall a, b :: 1 <= a < d && 0 <= b < d && IsDataCell(a, b) ==> !s[a][b]
    requires forall b :: 0 <= b < d && b % 2 == 0 ==> s[0][b] == s[0][0]
    ensures DataClear(s, d) <==> !s[0][0]
  {
    assert IsDataCell(0, 0);
  }

  /** The column-0 counterpart of `RowCornerDecides`. */
  lemma ColumnCornerDecides(s: Grid, d: nat)
    requires IsGrid(s, d) && 0 < d
    requires forall a, b :: 0 <= a < d && 1 <= b < d && IsDataCell(a, b) ==> !s[a][b]
    requires forall a :: 0 <= a < d && a % 2 == 0 ==> s[a][0] == s[0][0]
    ensures DataClear(s, d) <==> !s[0][0]
  {
    assert IsDataCell(0, 0);
  }

  /** An instance earns the full 10000 exactly when its syndrome is clean and
      the sweep leaves no data-cell error in either grid, so testing the two
      corner cells is testing the whole lattice. */
  lemma FullScoreClearsData(x: Grid, z: Grid, d: nat)
    requires IsGrid(x, d) && IsGrid(z, d) && d % 2 == 1
    ensures InstanceScore(x, z, d) == 10000 <==>
      FaultyCount(x, z, d) == 0 && DataClear(SweepX(x, d), d) && DataClear(SweepZ(z, d), d)
  {
    if FaultyCount(x, z, d) == 0 {
      CleanSyndromeChecks(x, z, d);
      var sx := SweepX(x, d);
      SweepXKeepsSyndrome(x, d);
      assert XClean(sx, d);
      CleanXResidue(sx, d);
      CleanZResidue(z, d);
      RowCornerDecides(sx, d);
      ColumnCornerDecides(SweepZ(z, d), d);
    }
  }
}
