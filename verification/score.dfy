/** `calculate_score`: per instance, a base score from the number of faulty
    syndrome cells, plus a bonus decided by the swept corner cells when the
    syndrome is clean; the total is the sum over all instances. */
module Score {
  import opened Lattice
  import opened Accumulator
  import opened Syndrome
  import opened Sweep
  import opened Instances

  /** The measurement-cell count `calculate_score` divides by, fixed whatever the
      lattice side. */
  const TOTAL_MEASUREMENTS: nat := 220

  /** `round(5000 * (220 - f) / 220)` in integer arithmetic. The quotient is
      250 * (220 - f) / 11, never halfway between two integers, so rounding
      to nearest is adding one half and flooring; Dafny's `/` floors for a
      positive divisor. The result is the one integer within one half of the
      exact quotient. */
  function BaseScore(f: nat): (r: int)
    ensures -110 < 220 * r - 5000 * (220 - f) < 110
    ensures r == 5000 <==> f == 0
    ensures f > 0 ==> r < 5000
    ensures f <= TOTAL_MEASUREMENTS ==> 0 <= r <= 5000
  {
    var r := (500 * (220 - f) + 11) / 22;
    BaseScoreRounds(f, r);
    r
  }

  /** The facts about the floored quotient that `BaseScore` promises. */
  lemma BaseScoreRounds(f: nat, r: int)
    requires r == (500 * (220 - f) + 11) / 22
    ensures -110 < 220 * r - 5000 * (220 - f) < 110
    ensures r == 5000 <==> f == 0
    ensures f > 0 ==> r < 5000
    ensures f <= TOTAL_MEASUREMENTS ==> 0 <= r <= 5000
  {
    var v := 500 * (220 - f) + 11;
    assert 22 * r <= v < 22 * r + 22;
    assert v == 2 * (250 * (220 - f) + 5) + 1;
    assert 22 * r != v;
  }

  /** The bonus from the two swept corner cells: 5000 when both are 0, 2000
      when exactly one is 1, nothing when both are 1. */
  function Bonus(x00: bool, z00: bool): (r: nat)
    ensures r == 5000 <==> !x00 && !z00
    ensures r == 2000 <==> x00 != z00
    ensures r == 0 <==> x00 && z00
  {
    var ones := (if x00 then 1 else 0) + (if z00 then 1 else 0);
    if ones == 0 then 5000 else if ones == 1 then 2000 else 0
  }

  /** The score of one instance from its residual grids: with `f` faulty
      cells, the integer nearest `5000 * (220 - f) / 220` when `f > 0`, and
      otherwise 5000 plus a bonus of 5000, 2000 or 0 as none, one or both
      of the swept corner cells hold an error. */
  function InstanceScore(x: Grid, z: Grid, d: nat): (r: int)
    requires IsGrid(x, d) && IsGrid(z, d) && d % 2 == 1
    ensures FaultyCount(x, z, d) <= TOTAL_MEASUREMENTS ==> 0 <= r <= 10000
    ensures FaultyCount(x, z, d) > 0 ==> -110 < 220 * r - 5000 * (220 - FaultyCount(x, z, d)) < 110
    ensures r >= 5000 <==> FaultyCount(x, z, d) == 0
    ensures r == 10000 <==> FaultyCount(x, z, d) == 0 && !SweepX(x, d)[0][0] && !SweepZ(z, d)[0][0]
    ensures r == 7000 <==> FaultyCount(x, z, d) == 0 && SweepX(x, d)[0][0] != SweepZ(z, d)[0][0]
    ensures r == 5000 <==> FaultyCount(x, z, d) == 0 && SweepX(x, d)[0][0] && SweepZ(z, d)[0][0]
  {
    var f := FaultyCount(x, z, d);
    if f == 0 then
      var swept := Hakidashi(x, z, d);
      BaseScore(0) + Bonus(swept.0[0][0], swept.1[0][0])
    else BaseScore(f)
  }

  /** Every cell of `g` holds the parity of the number of times its
      coordinate is listed in error rounds `0 .. e-1` and in correction
      rounds `0 .. n-1`. */
  predicate ListParity(g: Grid, errors: seq<seq<Coord>>, e: nat, corrections: seq<seq<Coord>>, n: nat, d: nat)
    requires IsGrid(g, d) && e <= |errors| && n <= |corrections|
  {
    forall i, j :: 0 <= i < d && 0 <= j < d ==>
      g[i][j] == Odd(RoundOccurrences(errors, e, Coord(i, j)) + RoundOccurrences(corrections, n, Coord(i, j)))
  }

  /** One channel on its own: error rounds, then correction rounds, from
      zero. Each cell ends at the parity of how often it was listed. */
  function ChannelResidual(errors: seq<seq<Coord>>, e: nat, corrections: seq<seq<Coord>>, n: nat, d: nat): (r: Grid)
    requires RoundsInBounds(errors, e, d) && RoundsInBounds(corrections, n, d)
    ensures IsGrid(r, d)
    ensures ListParity(r, errors, e, corrections, n, d)
  {
    ResidualParity(ZeroGrid(d), errors, e, corrections, n, d);
    ApplyRounds(ApplyRounds(ZeroGrid(d), errors, e, d), corrections, n, d)
  }

  /** What both loops over one instance must be able to read: its error
      lists for rounds `0 .. e-1` and the corrections for rounds `0 .. n-1`,
      all inside the lattice. */
  predicate Accumulable(inst: Instance, xc: seq<seq<Coord>>, zc: seq<seq<Coord>>, e: nat, n: nat, d: nat) {
    && RoundsInBounds(inst.xErrors, e, d) && RoundsInBounds(inst.zErrors, e, d)
    && RoundsInBounds(xc, n, d) && RoundsInBounds(zc, n, d)
  }

  /** The two grids after the error rounds `0 .. e-1` of `inst` and then the
      correction rounds `0 .. n-1`, both from zero and in the Rust scorer's order
      (per round, the Z list before the X list). */
  function Accumulate(inst: Instance, xc: seq<seq<Coord>>, zc: seq<seq<Coord>>, e: nat, n: nat, d: nat): (r: (Grid, Grid))
    requires Accumulable(inst, xc, zc, e, n, d)
    ensures IsGrid(r.0, d) && IsGrid(r.1, d)
  {
    var zero := ZeroGrid(d);
    var afterErrors := ApplyRoundsBoth(zero, zero, inst.xErrors, inst.zErrors, e, d);
    ApplyRoundsBoth(afterErrors.0, afterErrors.1, xc, zc, n, d)
  }

  /** The X grid depends only on the X lists and the Z grid only on the Z
      lists, so each is its channel's residual. */
  lemma AccumulatePerChannel(inst: Instance, xc: seq<seq<Coord>>, zc: seq<seq<Coord>>, e: nat, n: nat, d: nat)
    requires Accumulable(inst, xc, zc, e, n, d)
    ensures Accumulate(inst, xc, zc, e, n, d).0 == ChannelResidual(inst.xErrors, e, xc, n, d)
    ensures Accumulate(inst, xc, zc, e, n, d).1 == ChannelResidual(inst.zErrors, e, zc, n, d)
  {
    var zero := ZeroGrid(d);
    var afterErrors := ApplyRoundsBoth(zero, zero, inst.xErrors, inst.zErrors, e, d);
    ChannelsIndependent(zero, zero, inst.xErrors, inst.zErrors, e, d);
    ChannelsIndependent(afterErrors.0, afterErrors.1, xc, zc, n, d);
  }

  /** Each accumulated cell holds the parity of the number of times its
      coordinate was listed in its own channel, as error or as correction. */
  lemma AccumulateCells(inst: Instance, xc: seq<seq<Coord>>, zc: seq<seq<Coord>>, e: nat, n: nat, d: nat)
    requires Accumulable(inst, xc, zc, e, n, d)
    ensures ListParity(Accumulate(inst, xc, zc, e, n, d).0, inst.xErrors, e, xc, n, d)
    ensures ListParity(Accumulate(inst, xc, zc, e, n, d).1, inst.zErrors, e, zc, n, d)
  {
    AccumulatePerChannel(inst, xc, zc, e, n, d);
  }

  /** Instance `k` with all `c` rounds of errors and of corrections applied:
      the grids `calculate_score` inspects. */
  function Residual(inp: Input, out: Output, k: nat): (r: (Grid, Grid))
    requires ErrorsFit(inp) && CorrectionsFit(out, inp.t, inp.c, inp.d) && k < inp.t
    ensures IsGrid(r.0, inp.d) && IsGrid(r.1, inp.d)
    ensures ListParity(r.0, inp.testcase[k].xErrors, inp.c, out.xCorrections[k], inp.c, inp.d)
    ensures ListParity(r.1, inp.testcase[k].zErrors, inp.c, out.zCorrections[k], inp.c, inp.d)
  {
    AccumulateCells(inp.testcase[k], out.xCorrections[k], out.zCorrections[k], inp.c, inp.c, inp.d);
    Accumulate(inp.testcase[k], out.xCorrections[k], out.zCorrections[k], inp.c, inp.c, inp.d)
  }

  /** The score of each of instances `0 .. n-1`, in case order. An
      instance with `f > 0` faulty cells scores the integer nearest
      `5000 * (220 - f) / 220`; one with a clean syndrome scores 10000, 7000
      or 5000 as none, one or both of its swept corner cells hold an error. */
  function CaseScores(inp: Input, out: Output, n: nat): (r: seq<int>)
    requires ErrorsFit(inp) && CorrectionsFit(out, inp.t, inp.c, inp.d) && inp.d % 2 == 1 && n <= inp.t
    ensures |r| == n
    ensures forall k :: 0 <= k < n ==>
      (r[k] >= 5000 <==> FaultyCount(Residual(inp, out, k).0, Residual(inp, out, k).1, inp.d) == 0)
    ensures forall k :: 0 <= k < n ==>
      (r[k] == 10000 <==>
        && FaultyCount(Residual(inp, out, k).0, Residual(inp, out, k).1, inp.d) == 0
        && !SweepX(Residual(inp, out, k).0, inp.d)[0][0]
        && !SweepZ(Residual(inp, out, k).1, inp.d)[0][0])
    ensures forall k :: 0 <= k < n ==>
      var f := FaultyCount(Residual(inp, out, k).0, Residual(inp, out, k).1, inp.d);
      f > 0 ==> -110 < 220 * r[k] - 5000 * (220 - f) < 110
    ensures forall k :: 0 <= k < n ==>
      (r[k] == 7000 <==>
        && FaultyCount(Residual(inp, out, k).0, Residual(inp, out, k).1, inp.d) == 0
        && SweepX(Residual(inp, out, k).0, inp.d)[0][0] != SweepZ(Residual(inp, out, k).1, inp.d)[0][0])
    ensures forall k :: 0 <= k < n ==>
      (r[k] == 5000 <==>
        && FaultyCount(Residual(inp, out, k).0, Residual(inp, out, k).1, inp.d) == 0
        && SweepX(Residual(inp, out, k).0, inp.d)[0][0]
        && SweepZ(Residual(inp, out, k).1, inp.d)[0][0])
  {
    seq(n, k requires 0 <= k < n => InstanceScore(Residual(inp, out, k).0, Residual(inp, out, k).1, inp.d))
  }

  function Sum(s: seq<int>): int {
    if |s| == 0 then 0 else Sum(s[..|s| - 1]) + s[|s| - 1]
  }

  /** A sum of `|s|` terms, each between 0 and `hi`, lies between 0 and
      `hi * |s|`. */
  lemma {:induction false} SumBounds(s: seq<int>, hi: int)
    requires forall k :: 0 <= k < |s| ==> 0 <= s[k] <= hi
    ensures 0 <= Sum(s) <= hi * |s|
  {
    if |s| > 0 {
      var init := s[..|s| - 1];
      assert forall k :: 0 <= k < |init| ==> init[k] == s[k];
      SumBounds(init, hi);
      assert hi * |s| == hi * |init| + hi;
    }
  }

  /** A sum of `|s|` equal terms `v` is `v * |s|`. */
  lemma {:induction false} SumConstant(s: seq<int>, v: int)
    requires forall k :: 0 <= k < |s| ==> s[k] == v
    ensures Sum(s) == v * |s|
  {
    if |s| > 0 {
      var init := s[..|s| - 1];
      assert forall k :: 0 <= k < |init| ==> init[k] == s[k];
      SumConstant(init, v);
      assert v * |s| == v * |init| + v;
    }
  }

  /** On the 21×21 lattice every instance scores between 0 and 10000. */
  lemma CaseScoresBounded(inp: Input, out: Output, n: nat)
    requires ErrorsFit(inp) && CorrectionsFit(out, inp.t, inp.c, inp.d) && inp.d == 21 && n <= inp.t
    ensures forall k :: 0 <= k < n ==> 0 <= CaseScores(inp, out, n)[k] <= 10000
  {
    MeasurementCountFormula(inp.d);
  }

  /** The sum of the scores of instances `0 .. n-1`, the running
      `total_score`; on the 21×21 lattice it lies between 0 and 10000 per
      instance. */
  function TotalScore(inp: Input, out: Output, n: nat): (r: int)
    requires ErrorsFit(inp) && CorrectionsFit(out, inp.t, inp.c, inp.d) && inp.d % 2 == 1 && n <= inp.t
    ensures inp.d == 21 ==> 0 <= r <= 10000 * n
  {
    var scores := CaseScores(inp, out, n);
    if inp.d == 21 then
      CaseScoresBounded(inp, out, n);
      SumBounds(scores, 10000);
      Sum(scores)
    else Sum(scores)
  }

  /** `calculate_score`. */
  function CalculateScore(inp: Input, out: Output): (r: int)
    requires ErrorsFit(inp) && CorrectionsFit(out, inp.t, inp.c, inp.d) && inp.d % 2 == 1
    ensures inp.d == 21 ==> 0 <= r <= 10000 * inp.t
  {
    TotalScore(inp, out, inp.t)
  }

  /** No errors and no corrections in any round: every residual grid is
      zero, the syndrome is clean, the sweep leaves both corners at 0. */
  predicate Quiet(inp: Input, out: Output)
    requires ErrorsFit(inp) && CorrectionsFit(out, inp.t, inp.c, inp.d)
  {
    forall k, z :: 0 <= k < inp.t && 0 <= z < inp.c ==>
      inp.testcase[k].xErrors[z] == [] && inp.testcase[k].zErrors[z] == []
      && out.xCorrections[k][z] == [] && out.zCorrections[k][z] == []
  }

  lemma QuietResidualIsZero(inp: Input, out: Output, k: nat)
    requires ErrorsFit(inp) && CorrectionsFit(out, inp.t, inp.c, inp.d) && k < inp.t
    requires Quiet(inp, out)
    ensures IsZero(Residual(inp, out, k).0) && IsZero(Residual(inp, out, k).1)
  {
    var g := Residual(inp, out, k);
    forall i, j | 0 <= i < inp.d && 0 <= j < inp.d
      ensures !g.0[i][j] && !g.1[i][j]
    {
      QuietRoundsNeverList(inp.testcase[k].xErrors, inp.c, Coord(i, j));
      QuietRoundsNeverList(inp.testcase[k].zErrors, inp.c, Coord(i, j));
      QuietRoundsNeverList(out.xCorrections[k], inp.c, Coord(i, j));
      QuietRoundsNeverList(out.zCorrections[k], inp.c, Coord(i, j));
    }
  }

  lemma {:induction false} QuietRoundsNeverList(rounds: seq<seq<Coord>>, n: nat, p: Coord)
    requires n <= |rounds| && forall z :: 0 <= z < n ==> rounds[z] == []
    ensures RoundOccurrences(rounds, n, p) == 0
  {
    if n > 0 {
      QuietRoundsNeverList(rounds, n - 1, p);
    }
  }

  /** A quiet instance scores the full 10000. */
  lemma QuietInstanceFull(inp: Input, out: Output, k: nat)
    requires ErrorsFit(inp) && CorrectionsFit(out, inp.t, inp.c, inp.d) && inp.d % 2 == 1 && k < inp.t
    requires Quiet(inp, out)
    ensures InstanceScore(Residual(inp, out, k).0, Residual(inp, out, k).1, inp.d) == 10000
  {
    var g := Residual(inp, out, k);
    QuietResidualIsZero(inp, out, k);
    ZeroGridsHaveCleanSyndrome(g.0, g.1, inp.d);
  }

  /** With no errors and no corrections every instance scores exactly
      10000, so the total is 10000 per instance. */
  lemma QuietScoresFull(inp: Input, out: Output, n: nat)
    requires ErrorsFit(inp) && CorrectionsFit(out, inp.t, inp.c, inp.d) && inp.d % 2 == 1 && n <= inp.t
    requires Quiet(inp, out)
    ensures TotalScore(inp, out, n) == 10000 * n
  {
    var scores := CaseScores(inp, out, n);
    forall k | 0 <= k < n
      ensures scores[k] == 10000
    {
      QuietInstanceFull(inp, out, k);
    }
    SumConstant(scores, 10000);
  }
}
