/** XOR-accumulation of coordinate lists into the two parity grids
    (`x_error[x][y] ^= 1` in `calculate_score` and `vis`). */
module Accumulator {
  import opened Lattice

  predicate AllInBounds(ps: seq<Coord>, d: nat) {
    forall k :: 0 <= k < |ps| ==> InBounds(ps[k], d)
  }

  /** Every list among the first `n` rounds lies inside the d×d lattice. */
  predicate RoundsInBounds(rounds: seq<seq<Coord>>, n: nat, d: nat) {
    n <= |rounds| && forall r :: 0 <= r < n ==> AllInBounds(rounds[r], d)
  }

  /** How often `p` occurs in `ps`. */
  function Occurrences(ps: seq<Coord>, p: Coord): nat {
    if |ps| == 0 then 0 else (if ps[0] == p then 1 else 0) + Occurrences(ps[1..], p)
  }

  /** How often `p` occurs over the lists of rounds `0 .. n-1`. */
  function RoundOccurrences(rounds: seq<seq<Coord>>, n: nat, p: Coord): nat
    requires n <= |rounds|
  {
    if n == 0 then 0 else RoundOccurrences(rounds, n - 1, p) + Occurrences(rounds[n - 1], p)
  }

  /** Parity, defined by counting down so that the solver unfolds it only
      where a proof asks. */
  predicate Odd(n: nat) {
    if n == 0 then false else !Odd(n - 1)
  }

  /** Toggles every listed coordinate, in list order. Each cell ends flipped
      exactly when its coordinate is listed an odd number of times. */
  function ToggleList(g: Grid, ps: seq<Coord>, d: nat): (r: Grid)
    requires IsGrid(g, d) && AllInBounds(ps, d)
    ensures IsGrid(r, d)
    ensures forall i, j :: 0 <= i < d && 0 <= j < d ==>
      r[i][j] == (g[i][j] != Odd(Occurrences(ps, Coord(i, j))))
    decreases |ps|
  {
    if |ps| == 0 then g
    else
      assert AllInBounds(ps[1..], d);
      ToggleList(Toggle(g, ps[0]), ps[1..], d)
  }

  /** The loop `for z in 0..n` toggling the lists of rounds `0 .. n-1`. */
  function ApplyRounds(g: Grid, rounds: seq<seq<Coord>>, n: nat, d: nat): (r: Grid)
    requires IsGrid(g, d) && RoundsInBounds(rounds, n, d)
    ensures IsGrid(r, d)
  {
    if n == 0 then g
    else
      var prev := ApplyRounds(g, rounds, n - 1, d);
      ToggleList(prev, rounds[n - 1], d)
  }

  /** `Odd` is the remainder test `n % 2 == 1`. */
  lemma {:induction false} OddIsRemainder(n: nat)
    ensures Odd(n) <==> n % 2 == 1
  {
    if n > 0 {
      OddIsRemainder(n - 1);
    }
  }

  lemma {:induction false} OddAdd(a: nat, b: nat)
    ensures Odd(a + b) == (Odd(a) != Odd(b))
  {
    if b > 0 {
      OddAdd(a, b - 1);
    }
  }

  /** After rounds `0 .. n-1` each cell is flipped exactly when its
      coordinate was listed an odd number of times over those rounds. */
  lemma {:induction false} ApplyRoundsParity(g: Grid, rounds: seq<seq<Coord>>, n: nat, d: nat)
    requires IsGrid(g, d) && RoundsInBounds(rounds, n, d)
    ensures forall i, j :: 0 <= i < d && 0 <= j < d ==>
      ApplyRounds(g, rounds, n, d)[i][j] == (g[i][j] != Odd(RoundOccurrences(rounds, n, Coord(i, j))))
  {
    if n > 0 {
      ApplyRoundsParity(g, rounds, n - 1, d);
      var prev := ApplyRounds(g, rounds, n - 1, d);
      forall i, j | 0 <= i < d && 0 <= j < d
        ensures ApplyRounds(g, rounds, n, d)[i][j] == (g[i][j] != Odd(RoundOccurrences(rounds, n, Coord(i, j))))
      {
        OddAdd(RoundOccurrences(rounds, n - 1, Coord(i, j)), Occurrences(rounds[n - 1], Coord(i, j)));
      }
    }
  }

  /** The round loop of `calculate_score` over both channels at once: in each round the
      Z list is toggled into the Z grid, then the X list into the X grid. */
  function ApplyRoundsBoth(x: Grid, z: Grid, xr: seq<seq<Coord>>, zr: seq<seq<Coord>>, n: nat, d: nat): (r: (Grid, Grid))
    requires IsGrid(x, d) && IsGrid(z, d)
    requires RoundsInBounds(xr, n, d) && RoundsInBounds(zr, n, d)
    ensures IsGrid(r.0, d) && IsGrid(r.1, d)
  {
    if n == 0 then (x, z)
    else
      var prev := ApplyRoundsBoth(x, z, xr, zr, n - 1, d);
      var z' := ToggleList(prev.1, zr[n - 1], d);
      var x' := ToggleList(prev.0, xr[n - 1], d);
      (x', z')
  }

  /** The interleaved loop equals two independent per-channel loops: the X
      grid never depends on Z lists or the Z grid, and vice versa. */
  lemma {:induction false} ChannelsIndependent(x: Grid, z: Grid, xr: seq<seq<Coord>>, zr: seq<seq<Coord>>, n: nat, d: nat)
    requires IsGrid(x, d) && IsGrid(z, d)
    requires RoundsInBounds(xr, n, d) && RoundsInBounds(zr, n, d)
    ensures ApplyRoundsBoth(x, z, xr, zr, n, d) == (ApplyRounds(x, xr, n, d), ApplyRounds(z, zr, n, d))
  {
    if n > 0 {
      ChannelsIndependent(x, z, xr, zr, n - 1, d);
    }
  }

  /** Toggling the same list twice restores the grid. */
  lemma {:induction false} ToggleListTwice(g: Grid, ps: seq<Coord>, d: nat)
    requires IsGrid(g, d) && AllInBounds(ps, d)
    ensures ToggleList(ToggleList(g, ps, d), ps, d) == g
  {
    var once := ToggleList(g, ps, d);
    var twice := ToggleList(once, ps, d);
    GridExt(twice, g, d);
  }

  /** Applying the same rounds twice restores the grid. */
  lemma {:induction false} ApplyRoundsTwice(g: Grid, rounds: seq<seq<Coord>>, n: nat, d: nat)
    requires IsGrid(g, d) && RoundsInBounds(rounds, n, d)
    ensures ApplyRounds(ApplyRounds(g, rounds, n, d), rounds, n, d) == g
  {
    var once := ApplyRounds(g, rounds, n, d);
    var twice := ApplyRounds(once, rounds, n, d);
    ApplyRoundsParity(g, rounds, n, d);
    ApplyRoundsParity(once, rounds, n, d);
    GridExt(twice, g, d);
  }

  /** One cell of `ApplyRoundsParity`. */
  lemma ApplyRoundsAt(g: Grid, rounds: seq<seq<Coord>>, n: nat, d: nat, i: nat, j: nat)
    requires IsGrid(g, d) && RoundsInBounds(rounds, n, d) && i < d && j < d
    ensures ApplyRounds(g, rounds, n, d)[i][j] == (g[i][j] != Odd(RoundOccurrences(rounds, n, Coord(i, j))))
  {
    ApplyRoundsParity(g, rounds, n, d);
  }

  /** One cell of `ResidualParity`. */
  lemma ResidualAt(zero: Grid, errors: seq<seq<Coord>>, e: nat, corrections: seq<seq<Coord>>, n: nat, d: nat, i: nat, j: nat)
    requires IsGrid(zero, d) && i < d && j < d && !zero[i][j]
    requires RoundsInBounds(errors, e, d) && RoundsInBounds(corrections, n, d)
    ensures ApplyRounds(ApplyRounds(zero, errors, e, d), corrections, n, d)[i][j]
      == Odd(RoundOccurrences(errors, e, Coord(i, j)) + RoundOccurrences(corrections, n, Coord(i, j)))
  {
    var afterErrors := ApplyRounds(zero, errors, e, d);
    ApplyRoundsAt(zero, errors, e, d, i, j);
    ApplyRoundsAt(afterErrors, corrections, n, d, i, j);
    OddAdd(RoundOccurrences(errors, e, Coord(i, j)), RoundOccurrences(corrections, n, Coord(i, j)));
  }

  /** Starting from an all-zero grid, errors of rounds `0 .. e-1` followed
      by corrections of rounds `0 .. n-1` leave each cell at the parity of
      the total number of times its coordinate was listed. */
  lemma ResidualParity(zero: Grid, errors: seq<seq<Coord>>, e: nat, corrections: seq<seq<Coord>>, n: nat, d: nat)
    requires IsGrid(zero, d) && IsZero(zero)
    requires RoundsInBounds(errors, e, d) && RoundsInBounds(corrections, n, d)
    ensures forall i, j :: 0 <= i < d && 0 <= j < d ==>
      ApplyRounds(ApplyRounds(zero, errors, e, d), corrections, n, d)[i][j]
      == Odd(RoundOccurrences(errors, e, Coord(i, j)) + RoundOccurrences(corrections, n, Coord(i, j)))
  {
    forall i, j | 0 <= i < d && 0 <= j < d
      ensures ApplyRounds(ApplyRounds(zero, errors, e, d), corrections, n, d)[i][j]
        == Odd(RoundOccurrences(errors, e, Coord(i, j)) + RoundOccurrences(corrections, n, Coord(i, j)))
    {
      ResidualAt(zero, errors, e, corrections, n, d, i, j);
    }
  }

  /** Empty lists leave a grid unchanged. */
  lemma {:induction false} ApplyEmptyRounds(g: Grid, rounds: seq<seq<Coord>>, n: nat, d: nat)
    requires IsGrid(g, d) && n <= |rounds|
    requires forall r :: 0 <= r < n ==> rounds[r] == []
    ensures RoundsInBounds(rounds, n, d)
    ensures ApplyRounds(g, rounds, n, d) == g
  {
    if n > 0 {
      ApplyEmptyRounds(g, rounds, n - 1, d);
    }
  }
}
