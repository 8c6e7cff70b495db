/** `vis`: validate the corrections, score them, and compute what the frame
    at animation step `turn` shows for the first instance. Even steps 2z
    add the errors of round z, odd steps 2z+1 add the corrections of round
    z, and step 2c+1 shows the swept grids when the score earned the sweep.
    The drawing of the frame is not modelled; the frame is the grids it
    would draw. */
module Visualiser {
  import opened Wrappers
  import opened Lattice
  import opened Accumulator
  import opened Syndrome
  import opened Sweep
  import opened Instances
  import opened Score
  import opened Validation

  /** One animation frame: the X and Z parity grids, the grid of measurement
      errors shown for the current round, and whether the grids were swept. */
  datatype TurnState = TurnState(x: Grid, z: Grid, measured: Grid, swept: bool)

  /** The score, the rejected correction when validation fails, and the
      frame when it succeeds. */
  datatype VisResult = VisResult(score: int, error: Option<Violation>, state: Option<TurnState>)

  function Min(a: nat, b: nat): nat {
    if a < b then a else b
  }

  /** Number of leading error rounds the frame at `turn` includes. */
  function ErrorRoundsShown(turn: nat, c: nat): nat {
    Min(turn / 2 + 1, c)
  }

  /** Number of leading correction rounds the frame at `turn` includes. */
  function CorrectionRoundsShown(turn: nat, c: nat): nat {
    Min((turn + 1) / 2, c)
  }

  /** Corrections never run ahead of errors and lag them by at most one
      round: an even step has just added a round's errors, the following odd
      step adds that round's corrections. From step 2c-1 on every round of
      both is shown. */
  lemma ShownRounds(turn: nat, c: nat)
    ensures CorrectionRoundsShown(turn, c) <= ErrorRoundsShown(turn, c) <= c
    ensures turn < 2 * c && turn % 2 == 0 ==> ErrorRoundsShown(turn, c) == CorrectionRoundsShown(turn, c) + 1
    ensures turn < 2 * c && turn % 2 == 1 ==> ErrorRoundsShown(turn, c) == CorrectionRoundsShown(turn, c)
    ensures turn + 1 >= 2 * c <==> CorrectionRoundsShown(turn, c) == c
    ensures ErrorRoundsShown(turn, c) <= ErrorRoundsShown(turn + 1, c)
    ensures CorrectionRoundsShown(turn, c) <= CorrectionRoundsShown(turn + 1, c)
  {
  }

  /** What `vis` needs of its arguments not to fail an index: the scorer's
      requirements, an odd side for the sweep, a first instance whenever
      there is a round to show, and the measurement list the frame reads. */
  predicate Displayable(inp: Input, out: Output, turn: nat) {
    && ErrorsFit(inp) && OutputShaped(out, inp.t, inp.c) && inp.d % 2 == 1
    && (inp.c > 0 ==> inp.t > 0)
    && (inp.t > 0 && turn < 2 * inp.c ==>
          turn / 2 < |inp.testcase[0].measureErrors| && AllInBounds(inp.testcase[0].measureErrors[turn / 2], inp.d))
  }

  /** Once validation has passed, every correction the scorer reads lies
      inside the lattice. */
  lemma CleanOutputFits(out: Output, t: nat, c: nat, d: nat)
    requires OutputShaped(out, t, c) && forall q :: 0 <= q < t ==> CaseClean(out, d, q)
    ensures CorrectionsFit(out, t, c, d)
  {
    forall k | 0 <= k < t
      ensures RoundsInBounds(out.xCorrections[k], c, d) && RoundsInBounds(out.zCorrections[k], c, d)
    {
      assert CaseClean(out, d, k);
    }
  }

  /** The X and Z grids of the frame before any sweep: the first instance's
      shown error rounds, then its shown correction rounds. Each cell is the
      parity of how often it was listed in those rounds. */
  function FrameGrids(inp: Input, out: Output, turn: nat): (r: (Grid, Grid))
    requires ErrorsFit(inp) && CorrectionsFit(out, inp.t, inp.c, inp.d) && (inp.c > 0 ==> inp.t > 0)
    ensures IsGrid(r.0, inp.d) && IsGrid(r.1, inp.d)
    ensures inp.t > 0 ==>
      var e, n := ErrorRoundsShown(turn, inp.c), CorrectionRoundsShown(turn, inp.c);
      && ListParity(r.0, inp.testcase[0].xErrors, e, out.xCorrections[0], n, inp.d)
      && ListParity(r.1, inp.testcase[0].zErrors, e, out.zCorrections[0], n, inp.d)
    ensures inp.t == 0 ==> IsZero(r.0) && IsZero(r.1)
  {
    if inp.t == 0 then (ZeroGrid(inp.d), ZeroGrid(inp.d))
    else
      var e, n := ErrorRoundsShown(turn, inp.c), CorrectionRoundsShown(turn, inp.c);
      AccumulateCells(inp.testcase[0], out.xCorrections[0], out.zCorrections[0], e, n, inp.d);
      Accumulate(inp.testcase[0], out.xCorrections[0], out.zCorrections[0], e, n, inp.d)
  }

  /** The measurement-error grid of the frame: the first instance's list for
      round turn/2 while `turn < 2c`, nothing afterwards. */
  function Overlay(inp: Input, turn: nat): (r: Grid)
    requires inp.t > 0 && turn < 2 * inp.c ==>
      |inp.testcase| > 0 && turn / 2 < |inp.testcase[0].measureErrors| && AllInBounds(inp.testcase[0].measureErrors[turn / 2], inp.d)
    ensures IsGrid(r, inp.d)
    ensures inp.t > 0 && turn < 2 * inp.c ==>
      forall i, j :: 0 <= i < inp.d && 0 <= j < inp.d ==>
        r[i][j] == Odd(Occurrences(inp.testcase[0].measureErrors[turn / 2], Coord(i, j)))
    ensures inp.t == 0 || turn >= 2 * inp.c ==> IsZero(r)
  {
    if inp.t > 0 && turn < 2 * inp.c then ToggleList(ZeroGrid(inp.d), inp.testcase[0].measureErrors[turn / 2], inp.d)
    else ZeroGrid(inp.d)
  }

  /** The frame at `turn` for a run that scored `score`: the grids are swept
      exactly at the step after the last one when the score is at least
      5000. */
  function Frame(inp: Input, out: Output, turn: nat, score: int): (r: TurnState)
    requires Displayable(inp, out, turn) && CorrectionsFit(out, inp.t, inp.c, inp.d)
    ensures r.swept <==> score >= 5000 && turn == 2 * inp.c + 1
    ensures r.swept ==> (r.x, r.z) == Hakidashi(FrameGrids(inp, out, turn).0, FrameGrids(inp, out, turn).1, inp.d)
    ensures !r.swept ==> (r.x, r.z) == FrameGrids(inp, out, turn)
  {
    var g := FrameGrids(inp, out, turn);
    var swept := score >= 5000 && turn == 2 * inp.c + 1;
    var shown := if swept then Hakidashi(g.0, g.1, inp.d) else g;
    TurnState(shown.0, shown.1, Overlay(inp, turn), swept)
  }

  /** `vis`: score 0 with the first rejected correction when validation
      fails; otherwise the score of `calculate_score` and the frame. */
  function Vis(inp: Input, out: Output, turn: nat): (r: VisResult)
    requires Displayable(inp, out, turn)
    ensures r.error.Some? <==> exists q :: 0 <= q < inp.t && !CaseClean(out, inp.d, q)
    ensures r.error.Some? ==> IsFirstViolation(out, inp.d, inp.t, r.error.value) && r.score == 0 && r.state.None?
    ensures r.error.None? ==> CorrectionsFit(out, inp.t, inp.c, inp.d) && r.score == CalculateScore(inp, out)
    ensures r.error.None? ==> r.state.Some? && (r.state.value.swept <==> r.score >= 5000 && turn == 2 * inp.c + 1)
    ensures r.error.None? ==> r.state == Some(Frame(inp, out, turn, r.score))
  {
    match Validate(out, inp.d, inp.t)
    case Some(v) => VisResult(0, Some(v), None)
    case None =>
      CleanOutputFits(out, inp.t, inp.c, inp.d);
      var score := CalculateScore(inp, out);
      VisResult(score, None, Some(Frame(inp, out, turn, score)))
  }

  /** From step 2c-1 on, an unswept frame shows exactly the grids the
      scorer inspects for the first instance. */
  lemma LateFrameIsResidual(inp: Input, out: Output, turn: nat)
    requires ErrorsFit(inp) && CorrectionsFit(out, inp.t, inp.c, inp.d) && inp.t > 0
    requires turn + 1 >= 2 * inp.c
    ensures FrameGrids(inp, out, turn) == Residual(inp, out, 0)
  {
    ShownRounds(turn, inp.c);
  }

  /** With a single instance, the sweep is earned exactly when the residual
      syndrome is clean. */
  lemma SingleCaseSweepCondition(inp: Input, out: Output)
    requires ErrorsFit(inp) && CorrectionsFit(out, inp.t, inp.c, inp.d) && inp.d % 2 == 1 && inp.t == 1
    ensures CalculateScore(inp, out) >= 5000
      <==> FaultyCount(Residual(inp, out, 0).0, Residual(inp, out, 0).1, inp.d) == 0
  {
    var scores := CaseScores(inp, out, 1);
    assert Sum(scores) == Sum(scores[..0]) + scores[0];
  }

  /** The last frame of a single-instance run that earned the sweep shows
      the swept residual grids. */
  lemma FinalFrameIsSwept(inp: Input, out: Output)
    requires Displayable(inp, out, 2 * inp.c + 1) && inp.t == 1
    requires Vis(inp, out, 2 * inp.c + 1).state.Some?
    requires FaultyCount(Residual(inp, out, 0).0, Residual(inp, out, 0).1, inp.d) == 0
    ensures var s := Vis(inp, out, 2 * inp.c + 1).state.value;
      s.swept && (s.x, s.z) == Hakidashi(Residual(inp, out, 0).0, Residual(inp, out, 0).1, inp.d)
  {
    var turn := 2 * inp.c + 1;
    CleanOutputFits(out, inp.t, inp.c, inp.d);
    SingleCaseSweepCondition(inp, out);
    LateFrameIsResidual(inp, out, turn);
  }
}
